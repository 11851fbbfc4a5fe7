/** Serving and recalculating the board: leaderboard-service/src/services/leaderboard.service.ts. */
module Leaderboard {
  import opened Tally
  import opened Seqs
  import opened Scoring
  import opened OrderLaws
  import opened LiveStore
  import opened Ranking
  import opened Freeze

  // ---------------------------------------------------------------- pages of a list

  function Min(a: int, b: int): int {
    if a < b then a else b
  }

  /** The part of `xs` between two positions, both cut off at the end. */
  function Slice<T>(xs: seq<T>, lo: nat, hi: nat): seq<T>
    requires lo <= hi
  {
    xs[Min(lo, |xs|)..Min(hi, |xs|)]
  }

  /** Page `page` of the list, counting from 1. */
  function PageOf<T>(xs: seq<T>, page: int, size: nat): seq<T>
    requires page >= 1 && size > 0
  {
    PageBounds(page, size);
    Slice(xs, (page - 1) * size, (page - 1) * size + size)
  }

  lemma PageBounds(page: int, size: nat)
    requires page >= 1
    ensures 0 <= (page - 1) * size && (page - 1) * size + size == page * size
  {
  }

  function FirstPages<T>(xs: seq<T>, count: nat, size: nat): seq<T>
    requires size > 0
  {
    if count == 0 then [] else FirstPages(xs, count - 1, size) + PageOf(xs, count, size)
  }

  function TotalPages(n: nat, size: nat): nat
    requires size > 0
  {
    (n + size - 1) / size
  }

  lemma {:induction false} FirstPagesAre<T>(xs: seq<T>, count: nat, size: nat)
    requires size > 0
    ensures 0 <= count * size
    ensures FirstPages(xs, count, size) == xs[..Min(count * size, |xs|)]
  {
    if count > 0 {
      FirstPagesAre(xs, count - 1, size);
      PageBounds(count, size);
      var lo, hi := Min((count - 1) * size, |xs|), Min(count * size, |xs|);
      assert xs[..lo] + xs[lo..hi] == xs[..hi];
    }
  }

  lemma TotalPagesCover(n: nat, size: nat)
    requires size > 0
    ensures TotalPages(n, size) * size >= n
    ensures n > 0 ==> (TotalPages(n, size) - 1) * size < n
  {
    var k := TotalPages(n, size);
    assert n + size - 1 == k * size + (n + size - 1) % size;
    assert (k - 1) * size == k * size - size;
  }

  /** The pages up to the announced number of pages list everything once and in order. */
  lemma PagesPartition<T>(xs: seq<T>, size: nat)
    requires size > 0
    ensures FirstPages(xs, TotalPages(|xs|, size), size) == xs
  {
    TotalPagesCover(|xs|, size);
    FirstPagesAre(xs, TotalPages(|xs|, size), size);
  }

  /** Exactly the announced pages show something. */
  lemma PageNonEmptyIff<T>(xs: seq<T>, page: int, size: nat)
    requires page >= 1 && size > 0
    ensures PageOf(xs, page, size) != [] <==> page <= TotalPages(|xs|, size)
  {
    var k := TotalPages(|xs|, size);
    TotalPagesCover(|xs|, size);
    PageBounds(page, size);
    if page <= k {
      TimesMonotone(page - 1, k - 1, size);
    } else {
      TimesMonotone(k, page - 1, size);
    }
  }

  lemma TimesMonotone(a: int, b: int, size: nat)
    requires a <= b
    ensures a * size <= b * size
  {
  }

  // ---------------------------------------------------------------- the live page

  datatype LeaderboardRow = LeaderboardRow(rank: int, userId: string, scores: UserScore)

  /** Redis index rules: negative positions count from the end, and the stop position is included. */
  function RangeStart(n: nat, start: int): int {
    var s := if start < 0 then n + start else start;
    if s < 0 then 0 else s
  }

  function ZRangeRev(order: seq<string>, start: int, stop: int): seq<string> {
    var n := |order|;
    var lo := RangeStart(n, start);
    var hi := if stop < 0 then n + stop else stop;
    if lo > hi || lo >= n then [] else order[lo..Min(hi, n - 1) + 1]
  }

  /** The whole live board, best first. */
  ghost function LiveRows(leaderboard: map<string, int>, metadata: Metadata): seq<LeaderboardRow> {
    var order := RevOrder(leaderboard);
    seq(|order|, i requires 0 <= i < |order| => LeaderboardRow(i + 1, order[i], ScoreOf(RecordOf(metadata, order[i]))))
  }

  /** What a page of any number shows of the live board: the users of the range, beside the ranks that the
      page number alone determines. */
  ghost function LiveRange(leaderboard: map<string, int>, metadata: Metadata, page: int, size: nat): seq<LeaderboardRow> {
    var start := (page - 1) * size;
    var users := ZRangeRev(RevOrder(leaderboard), start, start + size - 1);
    seq(|users|, i requires 0 <= i < |users| => LeaderboardRow(start + i + 1, users[i], ScoreOf(RecordOf(metadata, users[i]))))
  }

  lemma RowsOfRange(leaderboard: map<string, int>, metadata: Metadata, page: int, size: nat, rows: seq<LeaderboardRow>)
    requires var start := (page - 1) * size;
             var users := ZRangeRev(RevOrder(leaderboard), start, start + size - 1);
             && |rows| == |users|
             && forall i :: 0 <= i < |users| ==>
                  rows[i] == LeaderboardRow(start + i + 1, users[i], ScoreOf(RecordOf(metadata, users[i])))
    ensures rows == LiveRange(leaderboard, metadata, page, size)
  {
  }

  lemma ZRangeIsPage(order: seq<string>, page: int, size: nat)
    requires page >= 1 && size > 0
    ensures var start := (page - 1) * size;
            ZRangeRev(order, start, start + size - 1) == PageOf(order, page, size)
  {
    PageBounds(page, size);
  }

  datatype RedisPage = NoRows | Listed(rows: seq<LeaderboardRow>) | Throws

  /** The row of a user at a position of the live board. */
  method LiveRow(redis: RedisStore, userId: string, position: int) returns (row: LeaderboardRow)
    requires userId in redis.metadata
    ensures row == LeaderboardRow(position + 1, userId, ScoreOf(RecordOf(redis.metadata, userId)))
  {
    var scores := ComputeUserScores(redis.metadata[userId]);
    row := LeaderboardRow(position + 1, userId, scores);
  }

  /** Row by row: the rank the page number gives, the user at that place of the range, and that user's
      own rescored record. */
  lemma LiveRangeShows(leaderboard: map<string, int>, metadata: Metadata, page: int, size: nat, i: nat)
    requires i < |LiveRange(leaderboard, metadata, page, size)|
    ensures var row, order := LiveRange(leaderboard, metadata, page, size)[i], RevOrder(leaderboard);
            && row.rank == (page - 1) * size + i + 1
            && RangeStart(|order|, (page - 1) * size) + i < |order|
            && row.userId == order[RangeStart(|order|, (page - 1) * size) + i]
            && (row.userId in metadata ==> row.scores == ScoreOf(metadata[row.userId]))
  {
    RangeMember(RevOrder(leaderboard), (page - 1) * size, (page - 1) * size + size - 1, i);
  }

  /** A user without a metadata entry makes the rescoring throw. */
  method GetLeaderboardPageFromRedis(redis: RedisStore, page: int, pageSize: nat) returns (r: RedisPage)
    requires pageSize > 0
    ensures var start := (page - 1) * pageSize;
            var users := ZRangeRev(RevOrder(redis.leaderboard), start, start + pageSize - 1);
            && (r.NoRows? <==> users == [])
            && (r.Throws? <==> exists u :: u in users && u !in redis.metadata)
            && (r.Listed? ==> r.rows == LiveRange(redis.leaderboard, redis.metadata, page, pageSize))
  {
    var startIdx := (page - 1) * pageSize;
    var endIdx := startIdx + pageSize - 1;
    var users := ZRangeRev(RevOrder(redis.leaderboard), startIdx, endIdx);
    if users == [] {
      return NoRows;
    }
    var rows: seq<LeaderboardRow> := [];
    for i := 0 to |users|
      invariant |rows| == i
      invariant forall k :: 0 <= k < i ==> users[k] in redis.metadata
      invariant forall k :: 0 <= k < i ==>
                  rows[k] == LeaderboardRow(startIdx + k + 1, users[k], ScoreOf(RecordOf(redis.metadata, users[k])))
    {
      if users[i] !in redis.metadata {
        assert users[i] in users;
        return Throws;
      }
      var row := LiveRow(redis, users[i], startIdx + i);
      rows := rows + [row];
    }
    RowsOfRange(redis.leaderboard, redis.metadata, page, pageSize, rows);
    r := Listed(rows);
  }

  // ---------------------------------------------------------------- the frozen page

  /** Any answer the database may give to `rank > start ORDER BY rank LIMIT limit`: it is ordered, it
      leaves nothing out below its last rank, and it is cut short only by the limit. */
  ghost predicate IsKeysetAnswer(table: seq<ResultRow>, start: int, limit: nat, answer: seq<ResultRow>) {
    && |answer| <= limit
    && NoDuplicates(answer)
    && (forall r :: r in answer ==> r in table && r.rank > start)
    && (forall i, j :: 0 <= i < j < |answer| ==> answer[i].rank <= answer[j].rank)
    && (forall r, a :: r in table && r.rank > start && a in answer && r.rank < a.rank ==> r in answer)
    && (|answer| < limit ==> forall r :: r in table && r.rank > start ==> r in answer)
  }

  ghost predicate ContiguousRanks(table: seq<ResultRow>) {
    forall i :: 0 <= i < |table| ==> table[i].rank == i + 1
  }

  /** Where an answer row stands in the table. */
  lemma RowAt(table: seq<ResultRow>, start: nat, limit: nat, answer: seq<ResultRow>, i: nat) returns (k: nat)
    requires ContiguousRanks(table) && IsKeysetAnswer(table, start, limit, answer) && i < |answer|
    ensures k < |table| && answer[i] == table[k] && answer[i].rank == k + 1
  {
    assert answer[i] in answer;
    k :| 0 <= k < |table| && table[k] == answer[i];
  }

  lemma {:induction false} KeysetRankAtLeast(table: seq<ResultRow>, start: nat, limit: nat, answer: seq<ResultRow>, i: nat)
    requires ContiguousRanks(table) && IsKeysetAnswer(table, start, limit, answer) && i < |answer|
    ensures answer[i].rank >= start + i + 1
  {
    var k := RowAt(table, start, limit, answer, i);
    if i > 0 {
      KeysetRankAtLeast(table, start, limit, answer, i - 1);
      var l := RowAt(table, start, limit, answer, i - 1);
      assert answer[i - 1] != answer[i] && answer[i - 1].rank <= answer[i].rank;
    } else {
      assert answer[i] in answer;
    }
  }

  /** No rank below an answer row's is missing. */
  lemma NextRankAnswered(table: seq<ResultRow>, start: nat, limit: nat, answer: seq<ResultRow>, i: nat) returns (j: nat)
    requires ContiguousRanks(table) && IsKeysetAnswer(table, start, limit, answer) && i < |answer|
    ensures start + i < |table| && j <= i && answer[j] == table[start + i]
  {
    var k := RowAt(table, start, limit, answer, i);
    KeysetRankAtLeast(table, start, limit, answer, i);
    var s := table[start + i];
    assert s in table && answer[i] in answer;
    assert k != start + i ==> s.rank < answer[i].rank;
    j :| 0 <= j < |answer| && answer[j] == s;
    KeysetRankAtLeast(table, start, limit, answer, j);
  }

  lemma {:induction false} KeysetRank(table: seq<ResultRow>, start: nat, limit: nat, answer: seq<ResultRow>, i: nat)
    requires ContiguousRanks(table) && IsKeysetAnswer(table, start, limit, answer) && i < |answer|
    ensures start + i < |table| && answer[i] == table[start + i]
  {
    var j := NextRankAnswered(table, start, limit, answer, i);
    if j < i {
      KeysetRank(table, start, limit, answer, j);
    }
  }

  lemma KeysetLength(table: seq<ResultRow>, start: nat, limit: nat, answer: seq<ResultRow>)
    requires ContiguousRanks(table) && IsKeysetAnswer(table, start, limit, answer)
    ensures |answer| == |Slice(table, start, start + limit)|
  {
    if answer != [] {
      KeysetRank(table, start, limit, answer, |answer| - 1);
    }
    if |answer| < limit && start < |table| {
      var last := table[|table| - 1];
      assert last in table;
      var j :| 0 <= j < |answer| && answer[j] == last;
      KeysetRank(table, start, limit, answer, j);
    }
  }

  /** With the contiguous ranks the freeze writes, keyset paging is offset paging. */
  lemma KeysetIsSlice(table: seq<ResultRow>, start: nat, limit: nat, answer: seq<ResultRow>)
    requires ContiguousRanks(table) && IsKeysetAnswer(table, start, limit, answer)
    ensures answer == Slice(table, start, start + limit)
  {
    KeysetLength(table, start, limit, answer);
    forall i | 0 <= i < |answer| ensures answer[i] == Slice(table, start, start + limit)[i] {
      KeysetRank(table, start, limit, answer, i);
    }
  }

  datatype Board = Board(leaderboard: seq<LeaderboardRow>, currentPage: int, totalPages: int, totalParticipants: nat)

  datatype PageResult = Shown(board: Board) | InvalidContest | Failed

  function FromResult(r: ResultRow): LeaderboardRow {
    LeaderboardRow(r.rank, r.userId, r.scores)
  }

  function FromResults(rs: seq<ResultRow>): seq<LeaderboardRow> {
    seq(|rs|, i requires 0 <= i < |rs| => FromResult(rs[i]))
  }

  /** The sorted set's size, or the number of frozen rows when the sorted set is empty. */
  method GetTotalLeaderboardEntries(redis: RedisStore, db: ContestDb) returns (total: nat)
    ensures total == if redis.leaderboard.Keys != {} then |RevOrder(redis.leaderboard)| else |db.results|
  {
    RevOrderIsRanking(redis.leaderboard);
    RankingLength(RevOrder(redis.leaderboard), redis.leaderboard);
    total := |redis.leaderboard.Keys|;
    if total != 0 {
      return;
    }
    total := |db.results|;
  }

  /** For pages from 1 on, the live range is that page of the live board. */
  lemma LivePage(leaderboard: map<string, int>, metadata: Metadata, page: int, size: nat)
    requires page >= 1 && size > 0
    ensures LiveRange(leaderboard, metadata, page, size) == PageOf(LiveRows(leaderboard, metadata), page, size)
  {
    PageBounds(page, size);
    ZRangeIsPage(RevOrder(leaderboard), page, size);
  }

  /** The keyset query answers with the page of the frozen board, and with its first page for a page
      number below 1. */
  lemma FrozenPage(table: seq<ResultRow>, page: int, size: nat, answer: seq<ResultRow>)
    requires size > 0 && ContiguousRanks(table)
    requires IsKeysetAnswer(table, (page - 1) * size, size, answer)
    ensures FromResults(answer) == PageOf(FromResults(table), if page >= 1 then page else 1, size)
  {
    var start := (page - 1) * size;
    if page >= 1 {
      PageBounds(page, size);
      FrozenSlice(table, start, size, answer);
    } else {
      TimesMonotone(page - 1, -1, size);
      KeysetFromFirst(table, start, size, answer);
      FrozenSlice(table, 0, size, answer);
    }
  }

  lemma FrozenSlice(table: seq<ResultRow>, start: nat, size: nat, answer: seq<ResultRow>)
    requires ContiguousRanks(table) && IsKeysetAnswer(table, start, size, answer)
    ensures FromResults(answer) == Slice(FromResults(table), start, start + size)
  {
    KeysetIsSlice(table, start, size, answer);
  }

  lemma KeysetFromFirst(table: seq<ResultRow>, start: int, limit: nat, answer: seq<ResultRow>)
    requires start <= 0 && ContiguousRanks(table) && IsKeysetAnswer(table, start, limit, answer)
    ensures IsKeysetAnswer(table, 0, limit, answer)
  {
  }

  /** The rows show what the database rows hold. */
  ghost predicate ShowsResults(rows: seq<LeaderboardRow>, results: seq<ResultRow>) {
    && |rows| == |results|
    && forall i :: 0 <= i < |rows| ==>
         rows[i].rank == results[i].rank && rows[i].userId == results[i].userId && rows[i].scores == results[i].scores
  }

  lemma FromResultsShows(results: seq<ResultRow>)
    ensures ShowsResults(FromResults(results), results)
  {
  }

  /** After a freeze, row i of a frozen page is the user at place (page - 1) * size + i of the ranking,
      with the rank of that place and that user's own rescored record. */
  lemma FrozenPageShows(table: seq<ResultRow>, m: Metadata, page: int, size: nat, answer: seq<ResultRow>,
                        rows: seq<LeaderboardRow>, i: nat)
    requires IsFrozen(table, m) && page >= 1 && size > 0
    requires IsKeysetAnswer(table, (page - 1) * size, size, answer)
    requires ShowsResults(rows, answer) && i < |rows|
    ensures var at := (page - 1) * size + i;
            && 0 <= at < |table|
            && rows[i].rank == at + 1 && rows[i].userId == Users(table)[at]
            && rows[i].userId in m && rows[i].scores == ScoreOf(m[rows[i].userId])
  {
    PageBounds(page, size);
    KeysetRank(table, (page - 1) * size, size, answer, i);
  }

  /** One page, whatever its number.  `answer` is what the database returns for the keyset query. */
  method GetLeaderboardPage(redis: RedisStore, db: ContestDb, contestExists: bool, page: int, pageSize: nat,
                            answer: seq<ResultRow>) returns (r: PageResult)
    requires pageSize > 0
    requires IsKeysetAnswer(db.results, (page - 1) * pageSize, pageSize, answer)
    ensures var start := (page - 1) * pageSize;
            var users := ZRangeRev(RevOrder(redis.leaderboard), start, start + pageSize - 1);
            && (r.Failed? <==> exists u :: u in users && u !in redis.metadata)
            && (r.InvalidContest? <==> users == [] && !contestExists)
    ensures r.Shown? ==>
              && r.board.currentPage == page
              && r.board.totalParticipants ==
                 (if redis.leaderboard.Keys != {} then |RevOrder(redis.leaderboard)| else |db.results|)
              && r.board.totalPages == TotalPages(r.board.totalParticipants, pageSize)
              && r.board.leaderboard ==
                 (var live := LiveRange(redis.leaderboard, redis.metadata, page, pageSize);
                  if live != [] then live else FromResults(answer))
    ensures r.Shown? && LiveRange(redis.leaderboard, redis.metadata, page, pageSize) == [] ==>
              ShowsResults(r.board.leaderboard, answer)
  {
    var total := GetTotalLeaderboardEntries(redis, db);
    var redisResult := GetLeaderboardPageFromRedis(redis, page, pageSize);
    if redisResult.Listed? {
      return Shown(Board(redisResult.rows, page, TotalPages(total, pageSize), total));
    }
    if redisResult.Throws? {
      return Failed;
    }
    if !contestExists {
      return InvalidContest;
    }
    FromResultsShows(answer);
    r := Shown(Board(FromResults(answer), page, TotalPages(total, pageSize), total));
  }

  // ---------------------------------------------------------------- one user's row

  datatype Lookup = Found(row: LeaderboardRow) | Absent

  function PositionIn(order: seq<string>, user: string): (i: int)
    ensures -1 <= i < |order|
    ensures i == -1 <==> user !in order
    ensures i >= 0 ==> order[i] == user
  {
    if order == [] then -1
    else if order[0] == user then 0
    else
      var i := PositionIn(order[1..], user);
      if i == -1 then -1 else i + 1
  }

  lemma PositionUnique(order: seq<string>, i: nat)
    requires NoDuplicates(order) && i < |order|
    ensures PositionIn(order, order[i]) == i
  {
  }

  lemma RangeMember(order: seq<string>, start: int, stop: int, i: nat)
    requires i < |ZRangeRev(order, start, stop)|
    ensures RangeStart(|order|, start) + i < |order|
    ensures ZRangeRev(order, start, stop)[i] == order[RangeStart(|order|, start) + i]
  {
  }

  /** A row of the live range stands as many places from the start of the range as its index says. */
  lemma LivePositions(leaderboard: map<string, int>, metadata: Metadata, page: int, size: nat, i: nat)
    requires i < |LiveRange(leaderboard, metadata, page, size)|
    ensures var order, row := RevOrder(leaderboard), LiveRange(leaderboard, metadata, page, size)[i];
            PositionIn(order, row.userId) == RangeStart(|order|, (page - 1) * size) + i
  {
    var order, start := RevOrder(leaderboard), (page - 1) * size;
    RevOrderIsRanking(leaderboard);
    RangeMember(order, start, start + size - 1, i);
    var row := LiveRange(leaderboard, metadata, page, size)[i];
    assert row.userId == ZRangeRev(order, start, start + size - 1)[i];
    PositionUnique(order, RangeStart(|order|, start) + i);
  }

  /** The rank of a row is its user's position on the live board. */
  ghost predicate RanksRight(rows: seq<LeaderboardRow>, leaderboard: map<string, int>) {
    forall i :: 0 <= i < |rows| ==> rows[i].rank == 1 + PositionIn(RevOrder(leaderboard), rows[i].userId)
  }

  /** A page number below 1 wraps around to the end of the board: when such a page shows live rows, their
      ranks are wrong.  Live rows carry the right ranks exactly for pages from 1 on. */
  lemma RanksRightIffPagePositive(leaderboard: map<string, int>, metadata: Metadata, page: int, size: nat)
    requires size > 0 && LiveRange(leaderboard, metadata, page, size) != []
    ensures RanksRight(LiveRange(leaderboard, metadata, page, size), leaderboard) <==> page >= 1
  {
    var rows, order := LiveRange(leaderboard, metadata, page, size), RevOrder(leaderboard);
    forall i | 0 <= i < |rows|
      ensures PositionIn(order, rows[i].userId) == RangeStart(|order|, (page - 1) * size) + i
    {
      LivePositions(leaderboard, metadata, page, size, i);
    }
    if page >= 1 {
      PageBounds(page, size);
    } else {
      TimesMonotone(page - 1, -1, size);
      assert rows[0].rank == (page - 1) * size + 1 <= 0;
    }
  }

  /** Such pages do show rows: page 0 does so whenever anybody is on the live board. */
  lemma PageZeroShowsRows(leaderboard: map<string, int>, metadata: Metadata, size: nat)
    requires size > 0 && leaderboard.Keys != {}
    ensures LiveRange(leaderboard, metadata, 0, size) != []
  {
    RevOrderIsRanking(leaderboard);
  }

  /** The row shows what some database row of its user holds. */
  ghost predicate ShowsStoredRow(row: LeaderboardRow, results: seq<ResultRow>) {
    exists k :: 0 <= k < |results| && results[k].userId == row.userId && results[k].rank == row.rank && results[k].scores == row.scores
  }

  /** After a freeze such a row has its user's place in the ranking and rescored record. */
  lemma StoredRowShows(row: LeaderboardRow, table: seq<ResultRow>, m: Metadata)
    requires IsFrozen(table, m) && ShowsStoredRow(row, table)
    ensures row.rank == 1 + PositionIn(Users(table), row.userId)
    ensures row.userId in m && row.scores == ScoreOf(m[row.userId])
  {
    var k :| 0 <= k < |table| && table[k].userId == row.userId && table[k].rank == row.rank && table[k].scores == row.scores;
    PositionUnique(Users(table), k);
  }

  /** The test on the rank treats position 0 like a missing user, so the live row is returned for
      every ranked user with metadata except the leader, who is looked up in the frozen results. */
  method GetUserLeaderboardRow(redis: RedisStore, db: ContestDb, userId: string) returns (r: Lookup)
    ensures r.Found? ==> r.row.userId == userId
    ensures var i := PositionIn(RevOrder(redis.leaderboard), userId);
            && (i > 0 && userId in redis.metadata ==>
                  r.Found? && r.row.rank == i + 1 && r.row.scores == ScoreOf(redis.metadata[userId]))
            && (!(i > 0 && userId in redis.metadata) ==>
                  && (r.Found? <==> exists row :: row in db.results && row.userId == userId)
                  && (r.Found? ==> ShowsStoredRow(r.row, db.results)))
  {
    var rank := PositionIn(RevOrder(redis.leaderboard), userId);
    if rank != -1 && rank != 0 {
      if userId in redis.metadata {
        var row := LiveRow(redis, userId, rank);
        return Found(row);
      }
    }
    for i := 0 to |db.results|
      invariant forall k :: 0 <= k < i ==> db.results[k].userId != userId
    {
      if db.results[i].userId == userId {
        assert db.results[i] in db.results;
        return Found(FromResult(db.results[i]));
      }
    }
    r := Absent;
  }

  // ---------------------------------------------------------------- forced recalculation

  /** The rows the query selects for one user, in order. */
  function RowsOfUser(rows: seq<Verdict>, user: string): seq<Verdict> {
    if rows == [] then []
    else RowsOfUser(rows[..|rows| - 1], user) + (if rows[|rows| - 1].userId == user then [rows[|rows| - 1]] else [])
  }

  lemma {:induction false} RowsOfUserAll(rows: seq<Verdict>, user: string)
    ensures forall v :: v in RowsOfUser(rows, user) <==> v in rows && v.userId == user
  {
    if rows != [] {
      var init := rows[..|rows| - 1];
      RowsOfUserAll(init, user);
      assert rows == init + [rows[|rows| - 1]];
    }
  }

  /** Grouping one user's rows gives that user's part of the whole grouping. */
  lemma {:induction false} GroupOfUser(rows: seq<Verdict>, user: string)
    ensures RecordOf(Group(RowsOfUser(rows, user)), user) == RecordOf(Group(rows), user)
    ensures user in Group(RowsOfUser(rows, user)) <==> user in Group(rows)
  {
    if rows != [] {
      var init, last := rows[..|rows| - 1], rows[|rows| - 1];
      GroupOfUser(init, user);
      if last.userId == user {
        GroupAppend(RowsOfUser(init, user), last);
      } else {
        assert RowsOfUser(rows, user) == RowsOfUser(init, user);
      }
    }
  }

  ghost predicate DistinctIds(rows: seq<Verdict>) {
    forall i, j :: 0 <= i < j < |rows| ==> rows[i].submissionId != rows[j].submissionId
  }

  lemma NotListedYet(rows: seq<Verdict>, k: nat)
    requires k < |rows| && DistinctIds(rows)
    ensures rows[k].submissionId !in RecordOf(Group(rows[..k]), rows[k].userId).processedSubmissions
    ensures Group(rows[..k + 1]) == FileVerdict(Group(rows[..k]), rows[k])
  {
    GroupBuckets(rows[..k], rows[k].userId, "");
    IdsMember(rows[..k], rows[k].userId, rows[k].submissionId);
    assert rows[..k + 1] == rows[..k] + [rows[k]];
    GroupAppend(rows[..k], rows[k]);
  }

  /** After replaying `done` onto the store `m0`. */
  ghost predicate Replayed(m0: Metadata, done: seq<Verdict>, userId: string, m: Metadata) {
    if done == [] then m == Without(m0, userId)
    else userId in Group(done) && m == m0[userId := Group(done)[userId]]
  }

  lemma ReplayStep(m0: Metadata, rows: seq<Verdict>, k: nat, userId: string, m: Metadata)
    requires k < |rows| && DistinctIds(rows) && rows[k].userId == userId
    requires Replayed(m0, rows[..k], userId, m)
    ensures Replayed(m0, rows[..k + 1], userId, UpdateUserState(m, rows[k]))
  {
    NotListedYet(rows, k);
    assert rows[..k] == [] ==> userId !in Group(rows[..k]);
    assert RecordOf(m, userId) == RecordOf(Group(rows[..k]), userId);
  }

  /** The sorted set once something was replayed. */
  ghost predicate Rescored(z0: map<string, int>, done: seq<Verdict>, userId: string, m: Metadata, z: map<string, int>) {
    z == if done == [] then z0 else z0[userId := PackedScore(RecordOf(m, userId))]
  }

  lemma RescoredBy(z0: map<string, int>, done: seq<Verdict>, userId: string, m: Metadata, z: map<string, int>,
                   more: seq<Verdict>, n: Metadata)
    requires Rescored(z0, done, userId, m, z) && more != [] && userId in n
    ensures Rescored(z0, more, userId, n, z[userId := PackedScore(n[userId])])
  {
  }

  lemma ReplayDone(m0: Metadata, z0: map<string, int>, rows: seq<Verdict>, userId: string, m: Metadata, z: map<string, int>)
    requires Replayed(m0, rows, userId, m) && Rescored(z0, rows, userId, m, z)
    ensures rows == [] ==> m == Without(m0, userId) && z == z0
    ensures rows != [] ==>
              && userId in Group(rows)
              && m == m0[userId := Group(rows)[userId]]
              && z == z0[userId := PackedScore(Group(rows)[userId])]
  {
  }

  /** One row of the replay. */
  method ReplayRow(redis: RedisStore, userId: string, rows: seq<Verdict>, k: nat,
                   ghost m0: Metadata, ghost z0: map<string, int>)
    requires k < |rows| && DistinctIds(rows) && rows[k].userId == userId
    requires Replayed(m0, rows[..k], userId, redis.metadata)
    requires Rescored(z0, rows[..k], userId, redis.metadata, redis.leaderboard)
    modifies redis
    ensures Replayed(m0, rows[..k + 1], userId, redis.metadata)
    ensures Rescored(z0, rows[..k + 1], userId, redis.metadata, redis.leaderboard)
  {
    ghost var m, z := redis.metadata, redis.leaderboard;
    ReplayStep(m0, rows, k, userId, m);
    var ok := redis.ProcessLiveVerdict(rows[k], NoFault);
    RescoredBy(z0, rows[..k], userId, m, z, rows[..k + 1], redis.metadata);
  }

  /** Deletes the user's record and replays the rows through the script.  With at least one row this
      rebuilds exactly the batch's record and score; with none the stale sorted-set entry stays. */
  method RecalculateLiveUserScore(redis: RedisStore, userId: string, rows: seq<Verdict>)
    requires DistinctIds(rows) && forall v :: v in rows ==> v.userId == userId
    modifies redis
    ensures rows == [] ==> redis.metadata == Without(old(redis.metadata), userId) && redis.leaderboard == old(redis.leaderboard)
    ensures rows != [] ==>
              && userId in Group(rows)
              && redis.metadata == old(redis.metadata)[userId := Group(rows)[userId]]
              && redis.leaderboard == old(redis.leaderboard)[userId := PackedScore(Group(rows)[userId])]
  {
    ghost var m0, z0 := redis.metadata, redis.leaderboard;
    redis.metadata := Without(redis.metadata, userId);
    for k := 0 to |rows|
      invariant Replayed(m0, rows[..k], userId, redis.metadata)
      invariant Rescored(z0, rows[..k], userId, redis.metadata, redis.leaderboard)
    {
      assert rows[k] in rows;
      ReplayRow(redis, userId, rows, k, m0, z0);
    }
    assert rows[..|rows|] == rows;
    ReplayDone(m0, z0, rows, userId, redis.metadata, redis.leaderboard);
  }

  /** Replay equals batch: for a user with at least one row, replaying the user's rows builds the record
      that grouping the whole contest gives that user, and so the batch score. */
  lemma ReplayEqualsBatch(rows: seq<Verdict>, userId: string)
    requires exists v :: v in rows && v.userId == userId
    ensures RowsOfUser(rows, userId) != []
    ensures userId in Group(rows) && userId in Group(RowsOfUser(rows, userId))
    ensures Group(RowsOfUser(rows, userId))[userId] == Group(rows)[userId]
  {
    var v :| v in rows && v.userId == userId;
    RowsOfUserAll(rows, userId);
    assert v in RowsOfUser(rows, userId);
    GroupOfUser(rows, userId);
    GroupBuckets(rows, userId, "");
    IdsMember(rows, userId, v.submissionId);
  }

  /** A replayed row masks every later delivery with its id. */
  lemma ReplayMasksLaterVerdicts(rows: seq<Verdict>, v: Verdict, w: Verdict)
    requires v in rows && v.userId == w.userId && v.submissionId == w.submissionId
    ensures UpdateUserState(Group(rows), w) == Group(rows)
  {
    GroupBuckets(rows, v.userId, "");
    IdsMember(rows, v.userId, v.submissionId);
  }

  /** `final` is what the rows become once everything is judged. */
  ghost predicate SameSubmissions(rows: seq<Verdict>, final: seq<Verdict>) {
    && |rows| == |final|
    && forall i :: 0 <= i < |rows| ==> rows[i].submissionId == final[i].submissionId
                                       && rows[i].userId == final[i].userId && rows[i].problemId == final[i].problemId
  }

  lemma ReplayOfRows(rows: seq<Verdict>)
    requires DistinctIds(rows)
    ensures Deliver(rows) == Group(rows)
  {
    DedupElements(rows);
    DeliverIsGroupOfDistinct(rows);
  }

  /** After a replay, deliveries of the real verdicts change nothing. */
  lemma {:induction false} ReplayOutlasts(rows: seq<Verdict>, final: seq<Verdict>, ds: seq<Verdict>)
    requires DistinctIds(rows) && SameSubmissions(rows, final)
    requires forall v :: v in ds ==> v in final
    ensures Deliver(rows + ds) == Group(rows)
  {
    if ds == [] {
      assert rows + ds == rows;
      ReplayOfRows(rows);
    } else {
      var init, w := ds[..|ds| - 1], ds[|ds| - 1];
      ReplayOutlasts(rows, final, init);
      assert rows + ds == (rows + init) + [w];
      DeliverAppend(rows + init, w);
      assert w in ds;
      var i :| 0 <= i < |final| && final[i] == w;
      assert rows[i] in rows;
      ReplayMasksLaterVerdicts(rows, rows[i], w);
    }
  }

  /** Groupings of the same submissions differ as soon as one of them differs. */
  lemma GroupsDiffer(rows: seq<Verdict>, final: seq<Verdict>, i: nat)
    requires SameSubmissions(rows, final) && i < |rows| && rows[i] != final[i] && rows[..i] == final[..i]
    ensures Group(rows) != Group(final)
  {
    var user, problem := rows[i].userId, rows[i].problemId;
    var at := |Rows(rows[..i], user, problem)|;
    RowAtIndex(rows, i);
    RowAtIndex(final, i);
    GroupBuckets(rows, user, problem);
    GroupBuckets(final, user, problem);
    assert Rows(rows, user, problem)[at] != Rows(final, user, problem)[at];
  }

  lemma RowAtIndex(rows: seq<Verdict>, i: nat)
    requires i < |rows|
    ensures var s, at := Rows(rows, rows[i].userId, rows[i].problemId), |Rows(rows[..i], rows[i].userId, rows[i].problemId)|;
            at < |s| && s[at] == ToSubmission(rows[i])
  {
    var user, problem := rows[i].userId, rows[i].problemId;
    assert rows == rows[..i] + ([rows[i]] + rows[i + 1..]);
    RowsSplit(rows[..i], [rows[i]] + rows[i + 1..], user, problem);
    RowsSplit([rows[i]], rows[i + 1..], user, problem);
    RowsOne(rows[i], user, problem);
  }

  lemma {:induction false} FirstDifference(rows: seq<Verdict>, final: seq<Verdict>) returns (i: nat)
    requires |rows| == |final| && rows != final
    ensures i < |rows| && rows[i] != final[i] && rows[..i] == final[..i]
  {
    var last := |rows| - 1;
    if rows[..last] != final[..last] {
      i := FirstDifference(rows[..last], final[..last]);
      assert rows[..last][..i] == rows[..i] && final[..last][..i] == final[..i];
    } else {
      i := last;
      assert rows == rows[..last] + [rows[last]] && final == final[..last] + [final[last]];
    }
  }

  /** A replay is right, for good, exactly if every row already had its real verdict: whatever of the
      real verdicts is delivered afterwards, the records are the batch grouping of the judged rows
      precisely when the replayed rows were those rows. */
  lemma ReplayRightIffAllJudged(rows: seq<Verdict>, final: seq<Verdict>, ds: seq<Verdict>)
    requires DistinctIds(rows) && SameSubmissions(rows, final)
    requires forall v :: v in ds ==> v in final
    ensures Deliver(rows + ds) == Group(final) <==> forall i :: 0 <= i < |rows| ==> rows[i] == final[i]
  {
    ReplayOutlasts(rows, final, ds);
    if rows != final {
      var i := FirstDifference(rows, final);
      GroupsDiffer(rows, final, i);
    }
  }

  /** The same, for a caller: rows are either still queued or already final. */
  lemma ReplayRightIffNoneQueued(rows: seq<Verdict>, final: seq<Verdict>, ds: seq<Verdict>)
    requires DistinctIds(rows) && SameSubmissions(rows, final)
    requires forall v :: v in ds ==> v in final
    requires forall i :: 0 <= i < |rows| ==> final[i].status != "QUEUE" && (rows[i].status == "QUEUE" || rows[i] == final[i])
    ensures Deliver(rows + ds) == Group(final) <==> forall i :: 0 <= i < |rows| ==> rows[i].status != "QUEUE"
  {
    ReplayRightIffAllJudged(rows, final, ds);
  }

  function JudgedRows(rows: seq<Verdict>): seq<Verdict> {
    if rows == [] then []
    else
      var last := rows[|rows| - 1];
      JudgedRows(rows[..|rows| - 1]) + if last.status == "QUEUE" then [] else [last]
  }

  lemma JudgedAppend(rows: seq<Verdict>, v: Verdict)
    ensures JudgedRows(rows + [v]) == if v.status == "QUEUE" then JudgedRows(rows) else JudgedRows(rows) + [v]
  {
    assert (rows + [v])[..|rows|] == rows;
  }

  lemma QueuedIsNeutral(x: Submission)
    requires x.status == "QUEUE"
    ensures !IsAc(x) && !IsWrong(x)
  {
    assert x.status[0] == 'Q';
  }

  lemma NeutralDoesNotCount(s: seq<Submission>, x: Submission, t: int)
    requires !IsAc(x) && !IsWrong(x)
    ensures ProblemResult(s + [x]) == ProblemResult(s) && CountUpTo(s + [x], t) == CountUpTo(s, t)
  {
    ProblemResultAppend(s, x);
    CountUpToAppend(s, x, t);
  }

  lemma CountAlike(a: seq<Submission>, b: seq<Submission>, x: Submission, t: int)
    requires ProblemResult(a) == ProblemResult(b) && CountUpTo(a, t) == CountUpTo(b, t)
    requires CountUpTo(a, x.relativeSubmittedAt) == CountUpTo(b, x.relativeSubmittedAt)
    ensures ProblemResult(a + [x]) == ProblemResult(b + [x]) && CountUpTo(a + [x], t) == CountUpTo(b + [x], t)
  {
    ProblemResultAppend(a, x);
    ProblemResultAppend(b, x);
    CountUpToAppend(a, x, t);
    CountUpToAppend(b, x, t);
  }

  /** Queued rows leave a problem's result and counts alone. */
  lemma {:induction false} QueuedRowsDoNotCount(rows: seq<Verdict>, user: string, problem: string, t: int)
    ensures var a, b := Rows(rows, user, problem), Rows(JudgedRows(rows), user, problem);
            ProblemResult(a) == ProblemResult(b) && CountUpTo(a, t) == CountUpTo(b, t)
  {
    if rows != [] {
      var init, last := rows[..|rows| - 1], rows[|rows| - 1];
      var x := ToSubmission(last);
      assert rows == init + [last];
      JudgedAppend(init, last);
      QueuedRowsDoNotCount(init, user, problem, t);
      RowsAppend(init, last, user, problem);
      if last.status == "QUEUE" {
        QueuedIsNeutral(x);
        NeutralDoesNotCount(Rows(init, user, problem), x, t);
      } else {
        QueuedRowsDoNotCount(init, user, problem, x.relativeSubmittedAt);
        RowsAppend(JudgedRows(init), last, user, problem);
        CountAlike(Rows(init, user, problem), Rows(JudgedRows(init), user, problem), x, t);
      }
    }
  }

  lemma RowsAppend(rows: seq<Verdict>, v: Verdict, user: string, problem: string)
    ensures Rows(rows + [v], user, problem) ==
            if v.userId == user && v.problemId == problem then Rows(rows, user, problem) + [ToSubmission(v)]
            else Rows(rows, user, problem)
  {
    RowsSplit(rows, [v], user, problem);
    RowsOne(v, user, problem);
  }

  lemma GroupOneMore(rows: seq<Verdict>, v: Verdict, user: string)
    ensures PackedScore(RecordOf(Group(rows + [v]), user)) ==
            PackedScore(RecordOf(Group(rows), user)) +
            if v.userId == user then ScoreDelta(Rows(rows, user, v.problemId), ToSubmission(v)) else 0
  {
    GroupAppend(rows, v);
    if v.userId == user {
      GroupBuckets(rows, user, v.problemId);
      ScoreAfterOneMore(RecordOf(Group(rows), user), v.problemId, ToSubmission(v));
    }
  }

  /** The score of a grouping is that of its judged rows. */
  lemma {:induction false} QueuedRowsDoNotScore(rows: seq<Verdict>, user: string)
    ensures PackedScore(RecordOf(Group(rows), user)) == PackedScore(RecordOf(Group(JudgedRows(rows)), user))
  {
    if rows != [] {
      var init, last := rows[..|rows| - 1], rows[|rows| - 1];
      assert rows == init + [last];
      JudgedAppend(init, last);
      QueuedRowsDoNotScore(init, user);
      SameDelta(init, last, user);
      GroupOneMore(init, last, user);
      GroupOneMore(JudgedRows(init), last, user);
    }
  }

  lemma SameDelta(rows: seq<Verdict>, v: Verdict, user: string)
    ensures var a, b := Rows(rows, user, v.problemId), Rows(JudgedRows(rows), user, v.problemId);
            && ScoreDelta(a, ToSubmission(v)) == ScoreDelta(b, ToSubmission(v))
            && (v.status == "QUEUE" ==> ScoreDelta(a, ToSubmission(v)) == 0)
  {
    QueuedRowsDoNotCount(rows, user, v.problemId, v.relativeSubmittedAt);
    DeltaAlike(Rows(rows, user, v.problemId), Rows(JudgedRows(rows), user, v.problemId), ToSubmission(v));
    if v.status == "QUEUE" {
      QueuedIsNeutral(ToSubmission(v));
    }
  }

  lemma DeltaAlike(a: seq<Submission>, b: seq<Submission>, x: Submission)
    requires ProblemResult(a) == ProblemResult(b) && CountUpTo(a, x.relativeSubmittedAt) == CountUpTo(b, x.relativeSubmittedAt)
    ensures ScoreDelta(a, x) == ScoreDelta(b, x)
    ensures !IsAc(x) && !IsWrong(x) ==> ScoreDelta(a, x) == 0
  {
  }

  /** Whatever is delivered afterwards, a replay leaves every user with the score of the rows that were
      judged when it was made. */
  lemma ReplayScoresJudgedRows(rows: seq<Verdict>, final: seq<Verdict>, ds: seq<Verdict>, user: string)
    requires DistinctIds(rows) && SameSubmissions(rows, final)
    requires forall v :: v in ds ==> v in final
    ensures PackedScore(RecordOf(Deliver(rows + ds), user)) == PackedScore(RecordOf(Group(JudgedRows(rows)), user))
  {
    ReplayOutlasts(rows, final, ds);
    QueuedRowsDoNotScore(rows, user);
  }

  /** One row replayed while queued: the AC delivered afterwards never scores. */
  lemma QueuedReplayLosesAc(id: string, user: string, problem: string, time: int)
    requires time < PENALTY_OFFSET
    ensures var queued, ac := Verdict(id, user, problem, "QUEUE", time), Verdict(id, user, problem, "AC", time);
            PackedScore(RecordOf(Deliver([queued] + [ac]), user)) == 0 < PackedScore(RecordOf(Group([ac]), user))
  {
    var queued, ac := Verdict(id, user, problem, "QUEUE", time), Verdict(id, user, problem, "AC", time);
    ReplayOutlasts([queued], [ac], [ac]);
    OneRowScore(queued);
    OneRowScore(ac);
  }

  lemma OneRowScore(v: Verdict)
    ensures PackedScore(RecordOf(Group([v]), v.userId)) == if v.status == "AC" then PENALTY_OFFSET - v.relativeSubmittedAt else 0
  {
    assert [v][..0] == [];
    assert Group([v]) == FileVerdict(map[], v);
    ScoreAfterOneMore(UserRecord(map[], []), v.problemId, ToSubmission(v));
  }
}
