/** The end-of-contest batch: leaderboard-service/src/services/freeze.service.ts. */
module Freeze {
  import opened Seqs
  import opened Scoring
  import opened OrderLaws
  import opened LiveStore
  import opened Ranking

  datatype Entry = Entry(userId: string, scores: UserScore)

  datatype ResultRow = ResultRow(userId: string, rank: int, scores: UserScore)

  /** The contest's rows of `contest_results` and its `leaderboard_frozen` flag. */
  class ContestDb {
    var results: seq<ResultRow>
    var frozen: bool

    constructor ()
      ensures results == [] && !frozen
    {
      results, frozen := [], false;
    }
  }

  function Users(results: seq<ResultRow>): seq<string> {
    seq(|results|, i requires 0 <= i < |results| => results[i].userId)
  }

  /** What a complete freeze of `m` leaves: one row per user, ranks 1 to n, scores falling. */
  ghost predicate IsFrozen(results: seq<ResultRow>, m: Metadata) {
    && IsRanking(Users(results), ScoreTable(m))
    && (forall i :: 0 <= i < |results| ==>
          && results[i].rank == i + 1
          && results[i].userId in m
          && results[i].scores == ScoreOf(m[results[i].userId]))
  }

  // ---------------------------------------------------------------- the library sort

  /** Stable insertion by falling score. */
  function InsertEntry(x: Entry, s: seq<Entry>): seq<Entry> {
    if s == [] then [x]
    else if s[0].scores.score >= x.scores.score then [s[0]] + InsertEntry(x, s[1..])
    else [x] + s
  }

  function SortStandings(s: seq<Entry>): seq<Entry> {
    if s == [] then [] else InsertEntry(s[|s| - 1], SortStandings(s[..|s| - 1]))
  }

  ghost predicate Falling(s: seq<Entry>) {
    forall i, j :: 0 <= i < j < |s| ==> s[i].scores.score >= s[j].scores.score
  }

  lemma {:induction false} InsertEntryKeeps(x: Entry, s: seq<Entry>)
    ensures multiset(InsertEntry(x, s)) == multiset(s) + multiset{x}
  {
    if s != [] && s[0].scores.score >= x.scores.score {
      InsertEntryKeeps(x, s[1..]);
      assert s == [s[0]] + s[1..];
    }
  }

  ghost predicate AtMost(s: seq<Entry>, score: int) {
    forall i :: 0 <= i < |s| ==> s[i].scores.score <= score
  }

  lemma {:induction false} InsertEntryFalls(x: Entry, s: seq<Entry>, top: int)
    requires Falling(s)
    ensures Falling(InsertEntry(x, s))
    ensures AtMost(s, top) && x.scores.score <= top ==> AtMost(InsertEntry(x, s), top)
  {
    if s != [] && s[0].scores.score >= x.scores.score {
      InsertEntryFalls(x, s[1..], s[0].scores.score);
      InsertEntryFalls(x, s[1..], top);
    }
  }

  lemma {:induction false} SortStandingsFalls(s: seq<Entry>)
    ensures Falling(SortStandings(s)) && multiset(SortStandings(s)) == multiset(s)
  {
    if s != [] {
      var init, x := s[..|s| - 1], s[|s| - 1];
      SortStandingsFalls(init);
      InsertEntryFalls(x, SortStandings(init), 0);
      InsertEntryKeeps(x, SortStandings(init));
      assert s == init + [x];
    }
  }

  // ---------------------------------------------------------------- the freeze itself

  /** The grouping loop. */
  method GroupRows(rows: seq<Verdict>) returns (aggregateState: Metadata)
    ensures aggregateState == Group(rows)
  {
    aggregateState := map[];
    for i := 0 to |rows|
      invariant aggregateState == Group(rows[..i])
    {
      var row := rows[i];
      assert rows[..i + 1] == rows[..i] + [row];
      GroupAppend(rows[..i], row);
      var state := aggregateState;
      if row.userId !in state {
        state := state[row.userId := UserRecord(map[], [])];
      }
      var user := state[row.userId];
      if row.problemId !in user.problems {
        user := user.(problems := user.problems[row.problemId := []]);
      }
      user := UserRecord(user.problems[row.problemId := user.problems[row.problemId] + [ToSubmission(row)]],
                         user.processedSubmissions + [row.submissionId]);
      assert user == AddSubmission(RecordOf(aggregateState, row.userId), row.problemId, ToSubmission(row)) by {
        assert user.problems == RecordOf(aggregateState, row.userId).problems[row.problemId :=
            ListOf(RecordOf(aggregateState, row.userId), row.problemId) + [ToSubmission(row)]];
      }
      state := state[row.userId := user];
      assert state == FileVerdict(aggregateState, row);
      aggregateState := state;
    }
    assert rows[..|rows|] == rows;
  }

  ghost predicate Covers(standings: seq<Entry>, m: Metadata) {
    && OneEntryPerUser(standings)
    && (forall u :: u in m ==> exists i :: 0 <= i < |standings| && standings[i].userId == u)
    && (forall i :: 0 <= i < |standings| ==> standings[i].userId in m && standings[i].scores == ScoreOf(m[standings[i].userId]))
  }

  /** Scores every user; the order of the entries is left open. */
  method ScoreAll(m: Metadata) returns (standings: seq<Entry>)
    ensures Covers(standings, m)
  {
    standings := [];
    var rest := m.Keys;
    while rest != {}
      invariant rest <= m.Keys
      invariant forall i, j :: 0 <= i < j < |standings| ==> standings[i].userId != standings[j].userId
      invariant forall u :: u in m && u !in rest ==> exists i :: 0 <= i < |standings| && standings[i].userId == u
      invariant forall i :: 0 <= i < |standings| ==> standings[i].userId in m && standings[i].userId !in rest
                                                     && standings[i].scores == ScoreOf(m[standings[i].userId])
      decreases rest
    {
      var userId :| userId in rest;
      var entry := ScoreUser(m, userId);
      ghost var before := standings;
      standings := standings + [entry];
      UsersCovered(m, before, entry, rest);
      rest := rest - {userId};
    }
  }

  method ScoreUser(m: Metadata, userId: string) returns (entry: Entry)
    requires userId in m
    ensures entry == Entry(userId, ScoreOf(m[userId]))
  {
    var scores := ComputeUserScores(m[userId]);
    entry := Entry(userId, scores);
  }

  lemma UsersCovered(m: Metadata, before: seq<Entry>, entry: Entry, rest: set<string>)
    requires forall u :: u in m && u !in rest ==> exists i :: 0 <= i < |before| && before[i].userId == u
    ensures forall u :: u in m && u !in rest - {entry.userId} ==>
              exists i :: 0 <= i < |before + [entry]| && (before + [entry])[i].userId == u
  {
    var after := before + [entry];
    forall u | u in m && u !in rest - {entry.userId} ensures exists i :: 0 <= i < |after| && after[i].userId == u {
      if u == entry.userId {
        assert after[|before|].userId == u;
      } else {
        var i :| 0 <= i < |before| && before[i].userId == u;
        assert after[i].userId == u;
      }
    }
  }

  /** A rearrangement covers the same users. */
  ghost predicate OneEntryPerUser(standings: seq<Entry>) {
    forall i, j :: 0 <= i < j < |standings| ==> standings[i].userId != standings[j].userId
  }

  lemma OneEntryPermutation(a: seq<Entry>, b: seq<Entry>)
    requires OneEntryPerUser(a) && multiset(a) == multiset(b)
    ensures OneEntryPerUser(b)
  {
    MultisetMembers(a, b);
    if i, j :| 0 <= i < j < |b| && b[i].userId == b[j].userId {
      assert b[i] in a && b[j] in a;
      assert b == b[..i] + [b[i]] + b[i + 1..j] + [b[j]] + b[j + 1..];
      assert b[i] == b[j] by {
        var k, l :| 0 <= k < |a| && 0 <= l < |a| && a[k] == b[i] && a[l] == b[j];
      }
      assert multiset(b)[b[i]] >= 2;
      assert NoDuplicates(a) by {
        forall k, l | 0 <= k < l < |a| ensures a[k] != a[l] {
          assert a[k].userId != a[l].userId;
        }
      }
      NoDuplicatesCount(a, b[i]);
    }
  }

  lemma CoversPermutation(a: seq<Entry>, b: seq<Entry>, m: Metadata)
    requires Covers(a, m) && multiset(a) == multiset(b)
    ensures Covers(b, m)
  {
    MultisetMembers(a, b);
    OneEntryPermutation(a, b);
    forall u | u in m ensures exists i :: 0 <= i < |b| && b[i].userId == u {
      var i :| 0 <= i < |a| && a[i].userId == u;
      assert a[i] in b;
    }
    forall i | 0 <= i < |b| ensures b[i].userId in m && b[i].scores == ScoreOf(m[b[i].userId]) {
      assert b[i] in a;
    }
  }

  /** The rows of the first entries, numbered from 1. */
  ghost predicate Numbered(results: seq<ResultRow>, standings: seq<Entry>) {
    && |results| == |standings|
    && forall i :: 0 <= i < |results| ==> results[i] == ResultRow(standings[i].userId, i + 1, standings[i].scores)
  }

  lemma RankedIsFrozen(standings: seq<Entry>, results: seq<ResultRow>, m: Metadata)
    requires Covers(standings, m) && Falling(standings)
    requires Numbered(results, standings)
    ensures IsFrozen(results, m)
  {
    var z, order := ScoreTable(m), Users(results);
    forall u ensures u in order <==> u in z {
      if u in z {
        var i :| 0 <= i < |standings| && standings[i].userId == u;
        assert order[i] == u;
      }
    }
    forall i, j | 0 <= i < j < |order| ensures z[order[i]] >= z[order[j]] {
      assert standings[i].scores.score >= standings[j].scores.score;
    }
  }

  method ComputeStandings(rows: seq<Verdict>) returns (standings: seq<Entry>)
    ensures Covers(standings, Group(rows)) && Falling(standings)
    ensures |standings| == |Group(rows).Keys|
  {
    var aggregateState := GroupRows(rows);
    var entries := ScoreAll(aggregateState);
    standings := SortStandings(entries);
    SortStandingsFalls(entries);
    CoversPermutation(entries, standings, aggregateState);
    CoversLength(standings, aggregateState);
  }

  /** The insert loop, numbering the rows; statement `fault` throws. */
  method InsertRows(standings: seq<Entry>, fault: int) returns (ok: bool, results: seq<ResultRow>)
    ensures ok == !(0 <= fault < |standings|)
    ensures ok ==> Numbered(results, standings)
  {
    results := [];
    for i := 0 to |standings|
      invariant Numbered(results, standings[..i]) && !(0 <= fault < i)
    {
      if fault == i {
        return false, results;
      }
      results := results + [ResultRow(standings[i].userId, i + 1, standings[i].scores)];
    }
    ok := true;
  }

  /** The transaction.  `fault` is the number of the statement that throws, counting BEGIN, the select,
      the delete, the n inserts, the flag update, COMMIT and the Redis unlink; later numbers mean none.
      A COMMIT or unlink may throw although it took effect, when only its reply is lost. */
  method ExecuteContestHardFreeze(db: ContestDb, redis: RedisStore, rows: seq<Verdict>, fault: nat, tookEffect: bool)
    returns (ok: bool)
    modifies db, redis
    ensures var commit := |Group(rows).Keys| + 4;
            && ok == (fault > commit + 1)
            && (if fault > commit || (fault == commit && tookEffect)
                then IsFrozen(db.results, Group(rows)) && db.frozen
                else db.results == old(db.results) && db.frozen == old(db.frozen))
            && (if fault > commit + 1 || (fault == commit + 1 && tookEffect)
                then redis.metadata == map[] && redis.leaderboard == map[]
                else redis.metadata == old(redis.metadata) && redis.leaderboard == old(redis.leaderboard))
  {
    if fault <= 1 {
      return false;
    }
    var standings := ComputeStandings(rows);
    var n := |standings|;
    if fault == 2 {
      return false;
    }
    var inserted, results := InsertRows(standings, fault - 3);
    if !inserted || fault == n + 3 || (fault == n + 4 && !tookEffect) {
      return false;
    }
    RankedIsFrozen(standings, results, Group(rows));
    db.results, db.frozen := results, true;
    if fault == n + 4 || (fault == n + 5 && !tookEffect) {
      return false;
    }
    redis.metadata, redis.leaderboard := map[], map[];
    ok := fault != n + 5;
  }

  lemma CoversLength(standings: seq<Entry>, m: Metadata)
    requires Covers(standings, m)
    ensures |standings| == |m.Keys|
  {
    var users := seq(|standings|, i requires 0 <= i < |standings| => standings[i].userId);
    ElementsCount(users);
    forall u | u in m ensures u in users {
      var i :| 0 <= i < |standings| && standings[i].userId == u;
      assert users[i] == u;
    }
    assert Elements(users) == m.Keys;
  }

  // ---------------------------------------------------------------- live and frozen standings

  /** The two stores break ties differently, yet show the same score at every rank, and each user's
      rank in both lies between 1 + #higher and #higher-or-equal. */
  lemma LiveAndFrozenAgree(leaderboard: map<string, int>, results: seq<ResultRow>, m: Metadata)
    requires leaderboard == ScoreTable(m) && IsFrozen(results, m)
    ensures |RevOrder(leaderboard)| == |results|
    ensures forall i | 0 <= i < |results| ::
              && RevOrder(leaderboard)[i] in leaderboard
              && leaderboard[RevOrder(leaderboard)[i]] == results[i].scores.score
    ensures forall i | 0 <= i < |results| ::
              1 + |Higher(leaderboard, results[i].scores.score)| <= results[i].rank
              <= |HigherOrEqual(leaderboard, results[i].scores.score)|
    ensures forall i | 0 <= i < |results| ::
              && RevOrder(leaderboard)[i] in leaderboard
              && 1 + |Higher(leaderboard, leaderboard[RevOrder(leaderboard)[i]])| <= i + 1
              <= |HigherOrEqual(leaderboard, leaderboard[RevOrder(leaderboard)[i]])|
  {
    var live, frozen := RevOrder(leaderboard), Users(results);
    RevOrderIsRanking(leaderboard);
    ScoresByPosition(live, frozen, leaderboard);
    forall i | 0 <= i < |results|
      ensures live[i] in leaderboard && leaderboard[live[i]] == results[i].scores.score
      ensures |Higher(leaderboard, results[i].scores.score)| <= i < |HigherOrEqual(leaderboard, results[i].scores.score)|
      ensures |Higher(leaderboard, leaderboard[live[i]])| <= i < |HigherOrEqual(leaderboard, leaderboard[live[i]])|
    {
      assert live[i] in leaderboard;
      assert frozen[i] in leaderboard;
      PositionInterval(live, leaderboard, i);
      PositionInterval(frozen, leaderboard, i);
    }
  }
}
