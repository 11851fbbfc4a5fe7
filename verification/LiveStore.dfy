/** The per-user records of a running contest: leaderboard-service/src/config/_lua.ts and
    leaderboard-service/src/services/redis.service.ts, for the keys of one contest. */
module LiveStore {
  import opened Tally
  import opened Seqs
  import opened Scoring
  import opened OrderLaws

  /** A verdict as the queue carries it, and as a RATED database row reads. */
  datatype Verdict = Verdict(submissionId: string, userId: string, problemId: string, status: string,
                             relativeSubmittedAt: int)

  type Metadata = map<string, UserRecord>

  function ToSubmission(v: Verdict): Submission {
    Submission(v.submissionId, v.relativeSubmittedAt, v.status)
  }

  function RecordOf(m: Metadata, user: string): UserRecord {
    if user in m then m[user] else UserRecord(map[], [])
  }

  /** Appends a verdict to its user's record. */
  function FileVerdict(m: Metadata, v: Verdict): Metadata {
    m[v.userId := AddSubmission(RecordOf(m, v.userId), v.problemId, ToSubmission(v))]
  }

  /** The script: a submission id the record already lists changes nothing. */
  function UpdateUserState(m: Metadata, v: Verdict): Metadata {
    if v.submissionId in RecordOf(m, v.userId).processedSubmissions then m else FileVerdict(m, v)
  }

  /** What the script does, field by field: it returns early for an id its user already has, and otherwise
      appends id, time and status to the user's list of the problem and the id to the user's ids. */
  ghost predicate ScriptEffect(before: Metadata, v: Verdict, after: Metadata) {
    var was, now := RecordOf(before, v.userId), RecordOf(after, v.userId);
    && (forall u :: u != v.userId ==> (u in after <==> u in before) && (u in before ==> after[u] == before[u]))
    && v.userId in after
    && if v.submissionId in was.processedSubmissions then now == was
       else
         && now.processedSubmissions == was.processedSubmissions + [v.submissionId]
         && now.problems.Keys == was.problems.Keys + {v.problemId}
         && now.problems[v.problemId] == ListOf(was, v.problemId) + [Submission(v.submissionId, v.relativeSubmittedAt, v.status)]
         && forall p :: p in was.problems && p != v.problemId ==> now.problems[p] == was.problems[p]
  }

  lemma ScriptDoes(m: Metadata, v: Verdict)
    ensures ScriptEffect(m, v, UpdateUserState(m, v))
  {
  }

  /** The score of every record. */
  ghost function ScoreTable(m: Metadata): map<string, int> {
    map u | u in m :: PackedScore(m[u])
  }

  /** Where processing a verdict throws: before the script ran, between script and write (a lost reply
      or a write that was not made), or after the write was made. */
  datatype Fault = NoFault | BeforeScript | AfterScript | AfterWrite

  class RedisStore {
    var metadata: Metadata
    var leaderboard: map<string, int>

    constructor ()
      ensures metadata == map[] && leaderboard == map[]
    {
      metadata, leaderboard := map[], map[];
    }

    /** The Lua script, atomic in Redis. */
    method EvalUpdateUserState(v: Verdict) returns (updated: UserRecord)
      modifies this`metadata
      ensures metadata == UpdateUserState(old(metadata), v)
      ensures v.userId in metadata && updated == metadata[v.userId]
      ensures ScriptEffect(old(metadata), v, metadata)
    {
      ScriptDoes(metadata, v);
      var userData := UserRecord(map[], []);
      if v.userId in metadata {
        userData := metadata[v.userId];
      }
      var i := 0;
      while i < |userData.processedSubmissions|
        invariant 0 <= i <= |userData.processedSubmissions|
        invariant v.submissionId !in userData.processedSubmissions[..i]
        invariant metadata == old(metadata) && userData == RecordOf(metadata, v.userId)
      {
        if userData.processedSubmissions[i] == v.submissionId {
          return userData;
        }
        i := i + 1;
      }
      var problems := userData.problems;
      if v.problemId !in problems {
        problems := problems[v.problemId := []];
      }
      problems := problems[v.problemId := problems[v.problemId] + [ToSubmission(v)]];
      assert problems == userData.problems[v.problemId := ListOf(userData, v.problemId) + [ToSubmission(v)]];
      updated := UserRecord(problems, userData.processedSubmissions + [v.submissionId]);
      metadata := metadata[v.userId := updated];
    }

    /** Script, local rescore, and then the separate sorted-set write, as far as `fault` lets it get. */
    method ProcessLiveVerdict(v: Verdict, fault: Fault) returns (ok: bool)
      modifies this
      ensures ok <==> fault == NoFault
      ensures fault == BeforeScript ==> metadata == old(metadata) && leaderboard == old(leaderboard)
      ensures fault != BeforeScript ==> metadata == UpdateUserState(old(metadata), v) && v.userId in metadata
      ensures fault == AfterScript ==> leaderboard == old(leaderboard)
      ensures fault in {NoFault, AfterWrite} ==>
                leaderboard == old(leaderboard)[v.userId := PackedScore(metadata[v.userId])]
    {
      if fault == BeforeScript {
        return false;
      }
      var updated := EvalUpdateUserState(v);
      if fault == AfterScript {
        return false;
      }
      var scores := ComputeUserScores(updated);
      leaderboard := leaderboard[v.userId := scores.score];
      ok := fault != AfterWrite;
    }
  }

  // ---------------------------------------------------------------- folds

  /** Redis after a delivery sequence, repeats included. */
  function Deliver(ds: seq<Verdict>): Metadata {
    if ds == [] then map[] else UpdateUserState(Deliver(ds[..|ds| - 1]), ds[|ds| - 1])
  }

  /** The batch grouping of a row list: every row is filed. */
  function Group(rows: seq<Verdict>): Metadata {
    if rows == [] then map[] else FileVerdict(Group(rows[..|rows| - 1]), rows[|rows| - 1])
  }

  /** The rows of one user and problem, in order. */
  function Rows(rows: seq<Verdict>, user: string, problem: string): seq<Submission> {
    if rows == [] then []
    else (if rows[0].userId == user && rows[0].problemId == problem then [ToSubmission(rows[0])] else [])
         + Rows(rows[1..], user, problem)
  }

  function IdsOf(rows: seq<Verdict>, user: string): seq<string> {
    if rows == [] then []
    else (if rows[0].userId == user then [rows[0].submissionId] else []) + IdsOf(rows[1..], user)
  }

  lemma {:induction false} RowsSplit(a: seq<Verdict>, b: seq<Verdict>, user: string, problem: string)
    ensures Rows(a + b, user, problem) == Rows(a, user, problem) + Rows(b, user, problem)
    ensures IdsOf(a + b, user) == IdsOf(a, user) + IdsOf(b, user)
  {
    if a == [] {
      assert a + b == b;
    } else {
      assert (a + b)[1..] == a[1..] + b;
      RowsSplit(a[1..], b, user, problem);
    }
  }

  lemma RowsOne(v: Verdict, user: string, problem: string)
    ensures Rows([v], user, problem) == if v.userId == user && v.problemId == problem then [ToSubmission(v)] else []
    ensures IdsOf([v], user) == if v.userId == user then [v.submissionId] else []
  {
    assert [v][1..] == [];
  }

  /** Every row lands in exactly one bucket, its own user's and problem's, in row order. */
  lemma {:induction false} GroupBuckets(rows: seq<Verdict>, user: string, problem: string)
    ensures var r := RecordOf(Group(rows), user);
            && ListOf(r, problem) == Rows(rows, user, problem)
            && (problem in r.problems <==> Rows(rows, user, problem) != [])
            && r.processedSubmissions == IdsOf(rows, user)
    ensures user in Group(rows) <==> IdsOf(rows, user) != []
  {
    if rows != [] {
      var init, last := rows[..|rows| - 1], rows[|rows| - 1];
      GroupBuckets(init, user, problem);
      assert rows == init + [last];
      RowsSplit(init, [last], user, problem);
      RowsOne(last, user, problem);
    }
  }

  lemma {:induction false} IdsMember(rows: seq<Verdict>, user: string, id: string)
    ensures id in IdsOf(rows, user) <==> exists v :: v in rows && v.userId == user && v.submissionId == id
  {
    if rows != [] {
      IdsMember(rows[1..], user, id);
      assert rows == [rows[0]] + rows[1..];
    }
  }

  lemma {:induction false} RowsMember(rows: seq<Verdict>, user: string, problem: string, x: Submission)
    requires x in Rows(rows, user, problem)
    ensures exists v :: v in rows && v.userId == user && v.problemId == problem && ToSubmission(v) == x
  {
    assert rows == [rows[0]] + rows[1..];
    if x in Rows(rows[1..], user, problem) {
      RowsMember(rows[1..], user, problem, x);
    }
  }

  /** One payload per submission id. */
  ghost predicate Consistent(ds: seq<Verdict>) {
    forall v, w :: v in ds && w in ds && v.submissionId == w.submissionId ==> v == w
  }

  lemma ListedIffFiled(d: seq<Verdict>, v: Verdict)
    requires forall w | w in d && w.submissionId == v.submissionId :: w == v
    ensures v.submissionId in RecordOf(Group(d), v.userId).processedSubmissions <==> v in d
  {
    GroupBuckets(d, v.userId, v.problemId);
    IdsMember(d, v.userId, v.submissionId);
  }

  lemma GroupAppend(d: seq<Verdict>, v: Verdict)
    ensures Group(d + [v]) == FileVerdict(Group(d), v)
  {
    assert (d + [v])[..|d|] == d;
  }

  lemma DeliverAppend(ds: seq<Verdict>, v: Verdict)
    ensures Deliver(ds + [v]) == UpdateUserState(Deliver(ds), v)
  {
    assert (ds + [v])[..|ds|] == ds;
  }

  lemma DeliverOneMore(init: seq<Verdict>, v: Verdict)
    requires Consistent(init + [v]) && Deliver(init) == Group(Dedup(init))
    ensures Deliver(init + [v]) == Group(Dedup(init + [v]))
  {
    var d := Dedup(init);
    DedupElements(init);
    forall w | w in d && w.submissionId == v.submissionId ensures w == v {
      assert w in init + [v] && v in init + [v];
    }
    ListedIffFiled(d, v);
    DeliverAppend(init, v);
    DedupAppend(init, v);
    GroupAppend(d, v);
  }

  /** The incremental fold with its id check equals the batch grouping of the distinct verdicts. */
  lemma {:induction false} DeliverIsGroupOfDistinct(ds: seq<Verdict>)
    requires Consistent(ds)
    ensures Deliver(ds) == Group(Dedup(ds))
  {
    if ds != [] {
      var init, v := ds[..|ds| - 1], ds[|ds| - 1];
      assert ds == init + [v];
      DeliverIsGroupOfDistinct(init);
      DeliverOneMore(init, v);
    }
  }

  // ---------------------------------------------------------------- order of delivery

  ghost predicate NoTies(rows: seq<Verdict>) {
    forall user, problem :: NoTie(Rows(rows, user, problem))
  }

  lemma RowsRemove(s: seq<Verdict>, k: nat, user: string, problem: string)
    requires k < |s|
    ensures multiset(Rows(s, user, problem)) ==
            multiset(Rows([s[k]], user, problem)) + multiset(Rows(s[..k] + s[k + 1..], user, problem))
    ensures |IdsOf(s, user)| == |IdsOf([s[k]], user)| + |IdsOf(s[..k] + s[k + 1..], user)|
  {
    var l, r := s[..k], s[k + 1..];
    assert s == l + ([s[k]] + r);
    RowsSplit(l, [s[k]] + r, user, problem);
    RowsSplit([s[k]], r, user, problem);
    RowsSplit(l, r, user, problem);
  }

  lemma {:induction false} RowsPermutation(a: seq<Verdict>, b: seq<Verdict>, user: string, problem: string)
    requires multiset(a) == multiset(b)
    ensures multiset(Rows(a, user, problem)) == multiset(Rows(b, user, problem))
    ensures |IdsOf(a, user)| == |IdsOf(b, user)|
  {
    if a == [] {
      assert |multiset(b)| == 0;
    } else {
      var k := RemoveSame(a, b);
      RowsPermutation(a[1..], b[..k] + b[k + 1..], user, problem);
      RowsRemove(b, k, user, problem);
      assert a == [a[0]] + a[1..];
      RowsSplit([a[0]], a[1..], user, problem);
    }
  }

  /** What a standings row shows of a user. */
  ghost predicate SameStanding(a: UserRecord, b: UserRecord) {
    && a.problems.Keys == b.problems.Keys
    && (forall p | p in a.problems :: ProblemResult(a.problems[p]) == ProblemResult(b.problems[p]))
    && SolvedOf(a) == SolvedOf(b)
    && PenaltyOf(a) == PenaltyOf(b)
    && PackedScore(a) == PackedScore(b)
  }

  lemma BucketPermutation(a: seq<Verdict>, b: seq<Verdict>, user: string, p: string)
    requires multiset(a) == multiset(b) && NoTies(a)
    ensures user in Group(a) <==> user in Group(b)
    ensures var ra, rb := RecordOf(Group(a), user), RecordOf(Group(b), user);
            && (p in ra.problems <==> p in rb.problems)
            && ProblemResult(ListOf(ra, p)) == ProblemResult(ListOf(rb, p))
  {
    GroupBuckets(a, user, p);
    GroupBuckets(b, user, p);
    RowsPermutation(a, b, user, p);
    var x, y := Rows(a, user, p), Rows(b, user, p);
    assert |multiset(x)| == |multiset(y)|;
    assert NoTie(x);
    ResultPermutation(x, y);
  }

  lemma SameStandingFromProblems(a: UserRecord, b: UserRecord)
    requires a.problems.Keys == b.problems.Keys
    requires forall p | p in a.problems :: ProblemResult(a.problems[p]) == ProblemResult(b.problems[p])
    ensures SameStanding(a, b)
  {
    SumSame(a.problems, b.problems, SolvedUnits);
    SumSame(a.problems, b.problems, Penalty);
  }

  lemma GroupPermutation(a: seq<Verdict>, b: seq<Verdict>, user: string)
    requires multiset(a) == multiset(b) && NoTies(a)
    ensures user in Group(a) <==> user in Group(b)
    ensures SameStanding(RecordOf(Group(a), user), RecordOf(Group(b), user))
  {
    var ra, rb := RecordOf(Group(a), user), RecordOf(Group(b), user);
    BucketPermutation(a, b, user, "");
    forall p
      ensures p in ra.problems <==> p in rb.problems
      ensures ProblemResult(ListOf(ra, p)) == ProblemResult(ListOf(rb, p))
    {
      BucketPermutation(a, b, user, p);
    }
    forall p | p in ra.problems ensures ProblemResult(ra.problems[p]) == ProblemResult(rb.problems[p]) {
      assert ListOf(ra, p) == ra.problems[p] && ListOf(rb, p) == rb.problems[p];
    }
    SameStandingFromProblems(ra, rb);
  }

  lemma DistinctPermute(ds: seq<Verdict>, es: seq<Verdict>)
    requires SameElements(ds, es)
    ensures multiset(Dedup(ds)) == multiset(Dedup(es))
  {
    DedupElements(ds);
    DedupElements(es);
    SameElementsPermute(Dedup(ds), Dedup(es));
  }

  /** Order and duplication independence: delivery sequences with the same set of verdicts give every
      user the same standing when no charged verdict ties with an earliest AC. */
  lemma DeliveryOrderIrrelevant(ds: seq<Verdict>, es: seq<Verdict>, user: string)
    requires Consistent(ds) && SameElements(ds, es) && NoTies(Dedup(ds))
    ensures user in Deliver(ds) <==> user in Deliver(es)
    ensures SameStanding(RecordOf(Deliver(ds), user), RecordOf(Deliver(es), user))
  {
    DeliverIsGroupOfDistinct(ds);
    DeliverIsGroupOfDistinct(es);
    DistinctPermute(ds, es);
    GroupPermutation(Dedup(ds), Dedup(es), user);
  }

  /** `v` is a charged verdict at exactly the time of the earliest AC among `rest`. */
  ghost predicate Ties(rest: seq<Verdict>, v: Verdict) {
    var s := Rows(rest, v.userId, v.problemId);
    IsWrong(ToSubmission(v)) && FirstAc(s) >= 0 && v.relativeSubmittedAt == s[FirstAc(s)].relativeSubmittedAt
  }

  lemma EarlyAndLateLists(rest: seq<Verdict>, v: Verdict, q: string)
    ensures var early, late := RecordOf(Group([v] + rest), v.userId), RecordOf(Group(rest + [v]), v.userId);
            var s, one := Rows(rest, v.userId, q), if q == v.problemId then [ToSubmission(v)] else [];
            && ListOf(early, q) == one + s
            && ListOf(late, q) == s + one
            && (q in early.problems <==> one + s != [])
            && (q in late.problems <==> one + s != [])
  {
    GroupBuckets([v] + rest, v.userId, q);
    GroupBuckets(rest + [v], v.userId, q);
    RowsSplit([v], rest, v.userId, q);
    RowsSplit(rest, [v], v.userId, q);
    RowsOne(v, v.userId, q);
  }

  /** A tie makes the first and the last place in the delivery order differ by one charge. */
  lemma TieShiftsScore(rest: seq<Verdict>, v: Verdict)
    requires Ties(rest, v)
    ensures PackedScore(RecordOf(Group([v] + rest), v.userId)) ==
            PackedScore(RecordOf(Group(rest + [v]), v.userId)) - WRONG_ATTEMPT_COST
  {
    var p := v.problemId;
    var early, late := RecordOf(Group([v] + rest), v.userId), RecordOf(Group(rest + [v]), v.userId);
    EarlyAndLateLists(rest, v, p);
    OtherProblemsAgree(rest, v);
    TieCosts(Rows(rest, v.userId, p), ToSubmission(v));
    ScoreDiffersAt(early, late, p);
  }

  lemma TieCosts(s: seq<Submission>, x: Submission)
    requires IsWrong(x) && FirstAc(s) >= 0 && x.relativeSubmittedAt == s[FirstAc(s)].relativeSubmittedAt
    ensures SolvedUnits([x] + s) == SolvedUnits(s + [x])
    ensures Penalty([x] + s) == Penalty(s + [x]) + WRONG_ATTEMPT_COST
  {
    TieMatters(s, x);
    OneMoreCharge([x] + s, s + [x]);
  }

  lemma OneMoreCharge(a: seq<Submission>, b: seq<Submission>)
    requires var r := ProblemResult(b); r.solved && ProblemResult(a) == r.(wrongAttemptsBeforeAC := r.wrongAttemptsBeforeAC + 1)
    ensures SolvedUnits(a) == SolvedUnits(b)
    ensures Penalty(a) == Penalty(b) + WRONG_ATTEMPT_COST
  {
  }

  lemma OtherProblemsAgree(rest: seq<Verdict>, v: Verdict)
    ensures var early, late := RecordOf(Group([v] + rest), v.userId), RecordOf(Group(rest + [v]), v.userId);
            forall q | q != v.problemId :: (q in early.problems <==> q in late.problems) && ListOf(early, q) == ListOf(late, q)
  {
    var early, late := RecordOf(Group([v] + rest), v.userId), RecordOf(Group(rest + [v]), v.userId);
    forall q | q != v.problemId
      ensures (q in early.problems <==> q in late.problems) && ListOf(early, q) == ListOf(late, q)
    {
      EarlyAndLateLists(rest, v, q);
    }
  }

  lemma ScoreDiffersAt(a: UserRecord, b: UserRecord, p: string)
    requires p in a.problems && p in b.problems
    requires forall q | q != p :: (q in a.problems <==> q in b.problems) && ListOf(a, q) == ListOf(b, q)
    ensures PackedScore(a) - PackedScore(b) ==
            (SolvedUnits(a.problems[p]) - SolvedUnits(b.problems[p])) * PENALTY_OFFSET
            - (Penalty(a.problems[p]) - Penalty(b.problems[p]))
  {
    SumPick(a.problems, SolvedUnits, p);
    SumPick(b.problems, SolvedUnits, p);
    SumPick(a.problems, Penalty, p);
    SumPick(b.problems, Penalty, p);
    forall q | q != p && q in a.problems ensures a.problems[q] == b.problems[q] {
      assert ListOf(a, q) == ListOf(b, q);
    }
    assert Without(a.problems, p) == Without(b.problems, p);
  }

  lemma FindTie(d: seq<Verdict>) returns (rest: seq<Verdict>, v: Verdict)
    requires !NoTies(d)
    ensures multiset([v] + rest) == multiset(d) == multiset(rest + [v])
    ensures Ties(rest, v)
  {
    var u, p :| !NoTie(Rows(d, u, p));
    var s := Rows(d, u, p);
    var j :| 0 <= j < |s| && IsWrong(s[j]) && s[j].relativeSubmittedAt == s[FirstAc(s)].relativeSubmittedAt;
    RowsMember(d, u, p, s[j]);
    v :| v in d && v.userId == u && v.problemId == p && ToSubmission(v) == s[j];
    rest := TakeOut(d, v);
    TieSurvives(d, rest, v, s[j]);
  }

  lemma TieSurvives(d: seq<Verdict>, rest: seq<Verdict>, v: Verdict, x: Submission)
    requires multiset([v] + rest) == multiset(d) && x == ToSubmission(v)
    requires var s := Rows(d, v.userId, v.problemId);
             IsWrong(x) && FirstAc(s) >= 0 && x.relativeSubmittedAt == s[FirstAc(s)].relativeSubmittedAt
    ensures Ties(rest, v)
  {
    var u, p := v.userId, v.problemId;
    RowsPermutation(d, [v] + rest, u, p);
    RowsSplit([v], rest, u, p);
    RowsOne(v, u, p);
    assert Rows([v] + rest, u, p) == [x] + Rows(rest, u, p);
    TieSurvivesRemoval(Rows(d, u, p), Rows(rest, u, p), x);
  }

  lemma TieSurvivesRemoval(s: seq<Submission>, rest: seq<Submission>, x: Submission)
    requires multiset(s) == multiset([x] + rest)
    requires IsWrong(x) && FirstAc(s) >= 0 && x.relativeSubmittedAt == s[FirstAc(s)].relativeSubmittedAt
    ensures FirstAc(rest) >= 0 && x.relativeSubmittedAt == rest[FirstAc(rest)].relativeSubmittedAt
  {
    EarliestTimePermutation(s, [x] + rest);
    FirstAcPrepend(x, rest);
  }

  ghost predicate SameScores(a: Metadata, b: Metadata) {
    forall user :: PackedScore(RecordOf(a, user)) == PackedScore(RecordOf(b, user))
  }

  lemma NoDuplicatesPermutation(a: seq<Verdict>, b: seq<Verdict>)
    requires NoDuplicates(a) && multiset(a) == multiset(b)
    ensures NoDuplicates(b)
  {
    if !NoDuplicates(b) {
      var i, j :| 0 <= i < j < |b| && b[i] == b[j];
      assert b == b[..i] + [b[i]] + b[i + 1..j] + [b[j]] + b[j + 1..];
      assert multiset(b)[b[i]] >= 2;
      NoDuplicatesCount(a, b[i]);
    }
  }

  lemma DeliverPermuted(ds: seq<Verdict>, es: seq<Verdict>)
    requires Consistent(ds) && multiset(Dedup(ds)) == multiset(es)
    ensures SameElements(ds, es) && Deliver(es) == Group(es)
  {
    DedupElements(ds);
    MultisetMembers(Dedup(ds), es);
    NoDuplicatesPermutation(Dedup(ds), es);
    DedupElements(es);
    DeliverIsGroupOfDistinct(es);
  }

  lemma NoTiesGiveSameScores(ds: seq<Verdict>, es: seq<Verdict>)
    requires Consistent(ds) && NoTies(Dedup(ds)) && SameElements(ds, es)
    ensures SameScores(Deliver(ds), Deliver(es))
  {
    forall user ensures PackedScore(RecordOf(Deliver(ds), user)) == PackedScore(RecordOf(Deliver(es), user)) {
      DeliveryOrderIrrelevant(ds, es, user);
    }
  }

  lemma TiesGiveDifferentScores(ds: seq<Verdict>) returns (es: seq<Verdict>)
    requires Consistent(ds) && !NoTies(Dedup(ds))
    ensures SameElements(ds, es) && !SameScores(Deliver(ds), Deliver(es))
  {
    var rest, v := FindTie(Dedup(ds));
    DeliverPermuted(ds, [v] + rest);
    DeliverPermuted(ds, rest + [v]);
    TieShiftsScore(rest, v);
    var u := v.userId;
    if PackedScore(RecordOf(Deliver(ds), u)) != PackedScore(RecordOf(Deliver([v] + rest), u)) {
      es := [v] + rest;
    } else {
      es := rest + [v];
    }
  }

  /** The tie condition is sharp: every delivery order of the same verdicts gives the same scores
      exactly when no charged verdict ties with an earliest AC. */
  lemma OrderIndependentIffNoTies(ds: seq<Verdict>)
    requires Consistent(ds)
    ensures NoTies(Dedup(ds)) <==> forall es | SameElements(ds, es) :: SameScores(Deliver(ds), Deliver(es))
  {
    if NoTies(Dedup(ds)) {
      forall es | SameElements(ds, es) ensures SameScores(Deliver(ds), Deliver(es)) {
        NoTiesGiveSameScores(ds, es);
      }
    } else {
      var es := TiesGiveDifferentScores(ds);
    }
  }
}
