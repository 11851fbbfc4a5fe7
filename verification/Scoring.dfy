/** Scoring of one contestant's record: leaderboard-service/src/services/scoring.service.ts.

    `ComputeUserScores` follows the source: sort each problem's list by time, scan it up to the
    first AC, add the ICPC penalty, pack the totals into one number.  It is proved against
    `ScoreOf`, which never sorts and never scans: it looks for the least (time, arrival) AC of the
    list as it arrived and counts what comes before it. */
module Scoring {
  import opened Tally

  /** One entry of `problems[probId]`.  `status` stays open: the engine also emits statuses outside
      the TypeScript union. */
  datatype Submission = Submission(submissionId: string, relativeSubmittedAt: int, status: string)

  datatype UserRecord = UserRecord(problems: map<string, seq<Submission>>, processedSubmissions: seq<string>)

  datatype ProblemScore = ProblemScore(solved: bool, wrongAttemptsBeforeAC: nat, scoreTime: int)

  datatype ProblemDetail = ProblemDetail(score: ProblemScore, submissions: seq<Submission>)

  datatype UserScore = UserScore(score: int, solved: int, penalty: int, details: map<string, ProblemDetail>)

  const PENALTY_OFFSET: int := 10_000_000
  const WRONG_ATTEMPT_COST: int := 20 * 60

  predicate IsAc(s: Submission) {
    s.status == "AC"
  }

  /** The statuses the scan charges for; everything else that is not AC is neutral. */
  predicate IsWrong(s: Submission) {
    !IsAc(s) && s.status in {"WA", "TLE", "MLE", "RE"}
  }

  // ---------------------------------------------------------------- sorting by time

  /** Puts a later arrival behind every entry that is not later than it. */
  function Insert(x: Submission, sorted: seq<Submission>): seq<Submission> {
    if sorted == [] then [x]
    else if sorted[0].relativeSubmittedAt <= x.relativeSubmittedAt then [sorted[0]] + Insert(x, sorted[1..])
    else [x] + sorted
  }

  /** The library's stable sort on `relativeSubmittedAt`. */
  function SortByTime(subs: seq<Submission>): seq<Submission> {
    if subs == [] then []
    else Insert(subs[|subs| - 1], SortByTime(subs[..|subs| - 1]))
  }

  ghost predicate SortedByTime(s: seq<Submission>) {
    forall i, j :: 0 <= i < j < |s| ==> s[i].relativeSubmittedAt <= s[j].relativeSubmittedAt
  }

  function AtTime(s: seq<Submission>, t: int): seq<Submission> {
    if s == [] then []
    else (if s[0].relativeSubmittedAt == t then [s[0]] else []) + AtTime(s[1..], t)
  }

  /** What the language promises of `sort`: ordered, and entries with equal keys keep their order. */
  ghost predicate IsStableSort(subs: seq<Submission>, r: seq<Submission>) {
    && SortedByTime(r)
    && forall t :: AtTime(r, t) == AtTime(subs, t)
  }

  lemma {:induction false} AtTimeSplit(a: seq<Submission>, b: seq<Submission>, t: int)
    ensures AtTime(a + b, t) == AtTime(a, t) + AtTime(b, t)
  {
    if a == [] {
      assert a + b == b;
    } else {
      assert (a + b)[1..] == a[1..] + b;
      AtTimeSplit(a[1..], b, t);
    }
  }

  lemma {:induction false} AtTimeNone(s: seq<Submission>, t: int)
    requires forall i :: 0 <= i < |s| ==> s[i].relativeSubmittedAt != t
    ensures AtTime(s, t) == []
  {
    if s != [] {
      AtTimeNone(s[1..], t);
    }
  }

  lemma {:induction false} AtTimeSome(s: seq<Submission>, t: int)
    requires AtTime(s, t) != []
    ensures exists i :: 0 <= i < |s| && s[i].relativeSubmittedAt == t
  {
    if s[0].relativeSubmittedAt != t {
      AtTimeSome(s[1..], t);
      var i :| 0 <= i < |s[1..]| && s[1..][i].relativeSubmittedAt == t;
      assert s[i + 1].relativeSubmittedAt == t;
    }
  }

  ghost predicate NotBefore(s: seq<Submission>, t: int) {
    forall i :: 0 <= i < |s| ==> t <= s[i].relativeSubmittedAt
  }

  lemma {:induction false} InsertNotBefore(x: Submission, s: seq<Submission>, t: int)
    requires NotBefore(s, t) && t <= x.relativeSubmittedAt
    ensures NotBefore(Insert(x, s), t)
  {
    if s != [] && s[0].relativeSubmittedAt <= x.relativeSubmittedAt {
      InsertNotBefore(x, s[1..], t);
    }
  }

  lemma {:induction false} InsertKeepsSorted(x: Submission, s: seq<Submission>)
    requires SortedByTime(s)
    ensures SortedByTime(Insert(x, s))
  {
    if s != [] && s[0].relativeSubmittedAt <= x.relativeSubmittedAt {
      InsertKeepsSorted(x, s[1..]);
      InsertNotBefore(x, s[1..], s[0].relativeSubmittedAt);
    }
  }

  lemma {:induction false} InsertAtTime(x: Submission, s: seq<Submission>, t: int)
    requires SortedByTime(s)
    ensures AtTime(Insert(x, s), t) == AtTime(s, t) + (if x.relativeSubmittedAt == t then [x] else [])
  {
    if s != [] && s[0].relativeSubmittedAt <= x.relativeSubmittedAt {
      InsertAtTime(x, s[1..], t);
      var tail := Insert(x, s[1..]);
      assert ([s[0]] + tail)[1..] == tail;
    } else {
      assert ([x] + s)[1..] == s;
      if x.relativeSubmittedAt == t {
        AtTimeNone(s, t);
      }
    }
  }

  lemma {:induction false} SortByTimeIsStable(subs: seq<Submission>)
    ensures IsStableSort(subs, SortByTime(subs))
  {
    if subs != [] {
      var init, x := subs[..|subs| - 1], subs[|subs| - 1];
      SortByTimeIsStable(init);
      InsertKeepsSorted(x, SortByTime(init));
      forall t ensures AtTime(SortByTime(subs), t) == AtTime(subs, t) {
        InsertAtTime(x, SortByTime(init), t);
        assert subs == init + [x];
        AtTimeSplit(init, [x], t);
      }
    }
  }

  /** A stable sort has one possible answer, so `SortByTime` stands for whatever the library runs. */
  lemma {:induction false} StableSortIsUnique(subs: seq<Submission>, a: seq<Submission>, b: seq<Submission>)
    requires IsStableSort(subs, a) && IsStableSort(subs, b)
    ensures a == b
  {
    SameAtTime(a, b);
  }

  lemma TailAtTime(s: seq<Submission>, t: int)
    requires s != []
    ensures AtTime(s, t) == (if s[0].relativeSubmittedAt == t then [s[0]] else []) + AtTime(s[1..], t)
    ensures AtTime(s[1..], t) == AtTime(s, t)[(if s[0].relativeSubmittedAt == t then 1 else 0)..]
  {
  }

  lemma {:induction false} SameAtTime(a: seq<Submission>, b: seq<Submission>)
    requires SortedByTime(a) && SortedByTime(b)
    requires forall t :: AtTime(a, t) == AtTime(b, t)
    ensures a == b
  {
    if a == [] {
    } else {
      var ta := a[0].relativeSubmittedAt;
      assert AtTime(a, ta) == AtTime(b, ta);
      AtTimeSome(b, ta);
      var tb := b[0].relativeSubmittedAt;
      assert AtTime(b, tb) == AtTime(a, tb);
      AtTimeSome(a, tb);
      assert ta == tb;
      forall t ensures AtTime(a[1..], t) == AtTime(b[1..], t) {
        assert AtTime(a, t) == AtTime(b, t);
        TailAtTime(a, t);
        TailAtTime(b, t);
      }
      SameAtTime(a[1..], b[1..]);
      assert a[0] == AtTime(a, ta)[0] == AtTime(b, ta)[0] == b[0];
      assert a == [a[0]] + a[1..] && b == [b[0]] + b[1..];
    }
  }

  // ---------------------------------------------------------------- the closed form

  /** Entry `j` of the arrival list comes before the point (t, i) in the order (time, arrival). */
  predicate Earlier(s: seq<Submission>, j: nat, t: int, i: int)
    requires j < |s|
  {
    s[j].relativeSubmittedAt < t || (s[j].relativeSubmittedAt == t && j < i)
  }

  /** Position of the AC with the least (time, arrival), or -1 when there is none. */
  function FirstAc(s: seq<Submission>): (f: int)
    ensures -1 <= f < |s|
  {
    if s == [] then -1
    else
      var f := FirstAc(s[..|s| - 1]);
      if IsAc(s[|s| - 1]) && (f == -1 || s[|s| - 1].relativeSubmittedAt < s[f].relativeSubmittedAt)
      then |s| - 1 else f
  }

  lemma {:induction false} FirstAcIsEarliest(s: seq<Submission>)
    ensures FirstAc(s) == -1 <==> forall j | 0 <= j < |s| :: !IsAc(s[j])
    ensures var f := FirstAc(s);
            f >= 0 ==> IsAc(s[f]) && forall j | 0 <= j < |s| && j != f && IsAc(s[j]) ::
                                       !Earlier(s, j, s[f].relativeSubmittedAt, f)
  {
    if s != [] {
      var last := |s| - 1;
      FirstAcIsEarliest(s[..last]);
      assert forall j | 0 <= j < last :: s[..last][j] == s[j];
    }
  }

  /** How many charged entries lie before (t, i). */
  function CountBefore(s: seq<Submission>, t: int, i: int): nat {
    if s == [] then 0
    else
      var last := |s| - 1;
      (if IsWrong(s[last]) && Earlier(s, last, t, i) then 1 else 0) + CountBefore(s[..last], t, i)
  }

  /** How many charged entries there are, and how many of them are not later than `t`. */
  function CountWrong(s: seq<Submission>): nat {
    if s == [] then 0 else (if IsWrong(s[0]) then 1 else 0) + CountWrong(s[1..])
  }

  function CountUpTo(s: seq<Submission>, t: int): nat {
    if s == [] then 0
    else (if IsWrong(s[0]) && s[0].relativeSubmittedAt <= t then 1 else 0) + CountUpTo(s[1..], t)
  }

  /** The result for one problem, stated on the list in arrival order. */
  function ProblemResult(s: seq<Submission>): ProblemScore {
    var f := FirstAc(s);
    if f == -1 then ProblemScore(false, CountWrong(s), 0)
    else ProblemScore(true, CountBefore(s, s[f].relativeSubmittedAt, f), s[f].relativeSubmittedAt)
  }

  ghost function WrongBefore(s: seq<Submission>, t: int, i: int): set<nat> {
    set j: nat | j < |s| && IsWrong(s[j]) && Earlier(s, j, t, i)
  }

  lemma WrongBeforeStep(s: seq<Submission>, t: int, i: int)
    requires s != []
    ensures var last := |s| - 1;
            WrongBefore(s, t, i) ==
            WrongBefore(s[..last], t, i) + if IsWrong(s[last]) && Earlier(s, last, t, i) then {last} else {}
  {
  }

  /** `CountBefore` is the size of the set it describes. */
  lemma {:induction false} CountBeforeIsCardinality(s: seq<Submission>, t: int, i: int)
    ensures CountBefore(s, t, i) == |WrongBefore(s, t, i)|
  {
    if s == [] {
      assert WrongBefore(s, t, i) == {};
    } else {
      CountBeforeIsCardinality(s[..|s| - 1], t, i);
      WrongBeforeStep(s, t, i);
    }
  }

  // ---------------------------------------------------------------- sort and scan

  /** What the source's inner loop leaves behind on an already sorted list. */
  function Scan(s: seq<Submission>): ProblemScore {
    if s == [] then ProblemScore(false, 0, 0)
    else if IsAc(s[0]) then ProblemScore(true, 0, s[0].relativeSubmittedAt)
    else
      var r := Scan(s[1..]);
      r.(wrongAttemptsBeforeAC := (if IsWrong(s[0]) then 1 else 0) + r.wrongAttemptsBeforeAC)
  }

  /** How one more arrival changes a problem's result; `upTo` counts the charged entries so far that
      are not later than the arrival. */
  function Advance(r: ProblemScore, x: Submission, upTo: nat): ProblemScore {
    if IsAc(x) then
      if r.solved && r.scoreTime <= x.relativeSubmittedAt then r
      else ProblemScore(true, upTo, x.relativeSubmittedAt)
    else if IsWrong(x) && (!r.solved || x.relativeSubmittedAt < r.scoreTime) then
      r.(wrongAttemptsBeforeAC := r.wrongAttemptsBeforeAC + 1)
    else r
  }

  lemma {:induction false} CountUpToAppend(s: seq<Submission>, x: Submission, t: int)
    ensures CountUpTo(s + [x], t) == CountUpTo(s, t) + (if IsWrong(x) && x.relativeSubmittedAt <= t then 1 else 0)
    ensures CountWrong(s + [x]) == CountWrong(s) + (if IsWrong(x) then 1 else 0)
  {
    if s != [] {
      assert (s + [x])[1..] == s[1..] + [x];
      CountUpToAppend(s[1..], x, t);
    } else {
      assert (s + [x])[1..] == [];
    }
  }

  lemma {:induction false} CountBeforeEnd(s: seq<Submission>, t: int, i: int)
    requires |s| <= i
    ensures CountBefore(s, t, i) == CountUpTo(s, t)
  {
    if s != [] {
      var last := |s| - 1;
      assert s == s[..last] + [s[last]];
      CountUpToAppend(s[..last], s[last], t);
      CountBeforeEnd(s[..last], t, i);
    }
  }

  lemma FirstAcAppend(s: seq<Submission>, x: Submission)
    ensures var f := FirstAc(s);
            FirstAc(s + [x]) ==
            if IsAc(x) && (f == -1 || x.relativeSubmittedAt < s[f].relativeSubmittedAt) then |s| else f
  {
    assert (s + [x])[..|s|] == s;
  }

  lemma CountBeforeAppend(s: seq<Submission>, x: Submission, t: int, i: int)
    ensures CountBefore(s + [x], t, i) == CountBefore(s, t, i) +
            (if IsWrong(x) && (x.relativeSubmittedAt < t || (x.relativeSubmittedAt == t && |s| < i)) then 1 else 0)
  {
    assert (s + [x])[..|s|] == s;
  }

  /** The closed form obeys the arrival law. */
  lemma ProblemResultAppend(s: seq<Submission>, x: Submission)
    ensures ProblemResult(s + [x]) == Advance(ProblemResult(s), x, CountUpTo(s, x.relativeSubmittedAt))
  {
    var f, g := FirstAc(s), FirstAc(s + [x]);
    FirstAcAppend(s, x);
    CountUpToAppend(s, x, 0);
    if g >= 0 {
      CountBeforeAppend(s, x, (s + [x])[g].relativeSubmittedAt, g);
      CountBeforeEnd(s, x.relativeSubmittedAt, |s|);
    }
  }

  lemma {:induction false} ScanTimeBound(s: seq<Submission>, t: int)
    requires forall i | 0 <= i < |s| :: t < s[i].relativeSubmittedAt
    ensures Scan(s).solved ==> t < Scan(s).scoreTime
    ensures CountUpTo(s, t) == 0
  {
    if s != [] {
      ScanTimeBound(s[1..], t);
    }
  }

  /** So does the scan, when the arrival goes to its place in the sorted list. */
  lemma {:induction false} ScanInsert(s: seq<Submission>, x: Submission)
    requires SortedByTime(s)
    ensures Scan(Insert(x, s)) == Advance(Scan(s), x, CountUpTo(s, x.relativeSubmittedAt))
  {
    if s == [] {
      assert Insert(x, s)[1..] == [];
    } else if s[0].relativeSubmittedAt <= x.relativeSubmittedAt {
      ScanInsert(s[1..], x);
      assert Insert(x, s)[1..] == Insert(x, s[1..]);
    } else {
      assert Insert(x, s)[1..] == s;
      ScanTimeBound(s, x.relativeSubmittedAt);
    }
  }

  lemma {:induction false} CountUpToInsert(s: seq<Submission>, x: Submission, t: int)
    ensures CountUpTo(Insert(x, s), t) == CountUpTo(s + [x], t)
  {
    CountUpToAppend(s, x, t);
    if s != [] && s[0].relativeSubmittedAt <= x.relativeSubmittedAt {
      CountUpToInsert(s[1..], x, t);
      CountUpToAppend(s[1..], x, t);
      assert Insert(x, s)[1..] == Insert(x, s[1..]);
    } else {
      assert Insert(x, s)[1..] == s;
    }
  }

  lemma {:induction false} CountUpToSort(s: seq<Submission>, t: int)
    ensures CountUpTo(SortByTime(s), t) == CountUpTo(s, t)
  {
    if s != [] {
      var init, x := s[..|s| - 1], s[|s| - 1];
      CountUpToSort(init, t);
      CountUpToInsert(SortByTime(init), x, t);
      CountUpToAppend(SortByTime(init), x, t);
      CountUpToAppend(init, x, t);
      assert s == init + [x];
    }
  }

  /** Sorting stably and scanning to the first AC computes the closed form, for every list. */
  lemma {:induction false} SortAndScanIsClosedForm(s: seq<Submission>)
    ensures Scan(SortByTime(s)) == ProblemResult(s)
  {
    if s != [] {
      var init, x := s[..|s| - 1], s[|s| - 1];
      SortAndScanIsClosedForm(init);
      SortByTimeIsStable(init);
      ScanInsert(SortByTime(init), x);
      CountUpToSort(init, x.relativeSubmittedAt);
      ProblemResultAppend(init, x);
      assert s == init + [x];
    }
  }

  // ---------------------------------------------------------------- totals over problems

  /** What one problem adds to the totals. */
  function SolvedUnits(subs: seq<Submission>): int {
    if ProblemResult(subs).solved then 1 else 0
  }

  function Penalty(subs: seq<Submission>): int {
    var r := ProblemResult(subs);
    if r.solved then r.scoreTime + r.wrongAttemptsBeforeAC * WRONG_ATTEMPT_COST else 0
  }

  function Detail(subs: seq<Submission>): ProblemDetail {
    ProblemDetail(ProblemResult(subs), SortByTime(subs))
  }

  /** The totals are sums over the problems; `SumPick` shows that any problem may come first. */
  ghost function SolvedOf(record: UserRecord): int {
    Sum(record.problems, SolvedUnits)
  }

  ghost function PenaltyOf(record: UserRecord): int {
    Sum(record.problems, Penalty)
  }

  /** The packed score. */
  ghost function PackedScore(record: UserRecord): int {
    SolvedOf(record) * PENALTY_OFFSET - PenaltyOf(record)
  }

  /** What rescoring a record from scratch returns. */
  ghost function ScoreOf(record: UserRecord): UserScore {
    UserScore(PackedScore(record), SolvedOf(record), PenaltyOf(record),
              map p | p in record.problems :: Detail(record.problems[p]))
  }

  // ---------------------------------------------------------------- the ICPC rules

  /** The charged attempts of a problem that count: those before every AC in (time, arrival) order. */
  ghost function ChargedBeforeAc(s: seq<Submission>): set<nat> {
    set j: nat | j < |s| && s[j].status in {"WA", "TLE", "MLE", "RE"} &&
      forall i | 0 <= i < |s| && s[i].status == "AC" ::
        s[j].relativeSubmittedAt < s[i].relativeSubmittedAt || (s[j].relativeSubmittedAt == s[i].relativeSubmittedAt && j < i)
  }

  /** A problem's detail by the rules, in terms of the submissions alone. */
  ghost predicate IcpcProblem(d: ProblemDetail, s: seq<Submission>) {
    && (d.score.solved <==> HasAc(s))
    && (d.score.solved ==> exists i :: 0 <= i < |s| && s[i].status == "AC" && s[i].relativeSubmittedAt == d.score.scoreTime)
    && (forall i :: 0 <= i < |s| && s[i].status == "AC" ==> d.score.scoreTime <= s[i].relativeSubmittedAt)
    && (!d.score.solved ==> d.score.scoreTime == 0)
    && d.score.wrongAttemptsBeforeAC == |ChargedBeforeAc(s)|
    && IsStableSort(s, d.submissions)
  }

  ghost predicate HasAc(s: seq<Submission>) {
    exists i :: 0 <= i < |s| && s[i].status == "AC"
  }

  ghost function SolvedProblems(problems: map<string, seq<Submission>>): set<string> {
    set p | p in problems && HasAc(problems[p])
  }

  /** Twenty minutes for every charged attempt, on top of the time of the AC. */
  function DetailPenalty(d: ProblemDetail): int {
    if d.score.solved then d.score.scoreTime + d.score.wrongAttemptsBeforeAC * 1200 else 0
  }

  /** A score by the rules. */
  ghost predicate IcpcScore(r: UserScore, problems: map<string, seq<Submission>>) {
    && r.score == r.solved * 10_000_000 - r.penalty
    && r.solved == |SolvedProblems(problems)|
    && r.penalty == Sum(r.details, DetailPenalty)
    && r.details.Keys == problems.Keys
    && forall p | p in problems :: IcpcProblem(r.details[p], problems[p])
  }

  ghost function WrongOnes(s: seq<Submission>): set<nat> {
    set j: nat | j < |s| && IsWrong(s[j])
  }

  lemma {:induction false} CountWrongIsCardinality(s: seq<Submission>)
    ensures CountWrong(s) == |WrongOnes(s)|
  {
    if s == [] {
      assert WrongOnes(s) == {};
    } else {
      var last := |s| - 1;
      CountWrongIsCardinality(s[..last]);
      assert s == s[..last] + [s[last]];
      CountUpToAppend(s[..last], s[last], 0);
      WrongOnesStep(s);
    }
  }

  lemma WrongOnesStep(s: seq<Submission>)
    requires s != []
    ensures var last := |s| - 1;
            |WrongOnes(s)| == |WrongOnes(s[..last])| + if IsWrong(s[last]) then 1 else 0
  {
    var last := |s| - 1;
    assert WrongOnes(s) == WrongOnes(s[..last]) + if IsWrong(s[last]) then {last} else {};
  }

  lemma ChargedIsWrong(x: Submission)
    ensures x.status in {"WA", "TLE", "MLE", "RE"} <==> IsWrong(x)
  {
    assert "WA"[0] == 'W' && "TLE"[0] == 'T' && "MLE"[0] == 'M' && "RE"[0] == 'R' && "AC"[0] == 'A';
  }

  lemma ChargedCount(s: seq<Submission>)
    ensures ProblemResult(s).wrongAttemptsBeforeAC == |ChargedBeforeAc(s)|
  {
    var f := FirstAc(s);
    FirstAcIsEarliest(s);
    forall j: nat | j < |s| ensures s[j].status in {"WA", "TLE", "MLE", "RE"} <==> IsWrong(s[j]) {
      ChargedIsWrong(s[j]);
    }
    if f == -1 {
      CountWrongIsCardinality(s);
      assert ChargedBeforeAc(s) == WrongOnes(s);
    } else {
      var t := s[f].relativeSubmittedAt;
      CountBeforeIsCardinality(s, t, f);
      forall j: nat | j in WrongBefore(s, t, f) ensures j in ChargedBeforeAc(s) {
        forall i | 0 <= i < |s| && s[i].status == "AC"
          ensures s[j].relativeSubmittedAt < s[i].relativeSubmittedAt || (s[j].relativeSubmittedAt == s[i].relativeSubmittedAt && j < i)
        {
          assert i != f ==> !Earlier(s, i, t, f);
        }
      }
      assert ChargedBeforeAc(s) == WrongBefore(s, t, f);
    }
  }

  lemma DetailIsIcpc(s: seq<Submission>)
    ensures IcpcProblem(Detail(s), s)
  {
    ChargedCount(s);
    FirstAcIsEarliest(s);
    SortByTimeIsStable(s);
    var f := FirstAc(s);
    forall i | 0 <= i < |s| && s[i].status == "AC" ensures f >= 0 && s[f].relativeSubmittedAt <= s[i].relativeSubmittedAt {
      assert i != f ==> !Earlier(s, i, s[f].relativeSubmittedAt, f);
    }
  }

  lemma SolvedIffAc(s: seq<Submission>)
    ensures SolvedUnits(s) == if HasAc(s) then 1 else 0
  {
    FirstAcIsEarliest(s);
  }

  lemma {:induction false} SolvedIsCardinality(problems: map<string, seq<Submission>>)
    ensures Sum(problems, SolvedUnits) == |SolvedProblems(problems)|
    decreases problems.Keys
  {
    if problems.Keys == {} {
      assert SolvedProblems(problems) == {};
    } else {
      var p := PickKey(problems);
      var rest := Without(problems, p);
      SolvedIsCardinality(rest);
      SolvedIffAc(problems[p]);
      SolvedWithout(problems, p);
    }
  }

  lemma SolvedWithout(problems: map<string, seq<Submission>>, p: string)
    requires p in problems
    ensures |SolvedProblems(problems)| == |SolvedProblems(Without(problems, p))| + if HasAc(problems[p]) then 1 else 0
  {
    var rest := SolvedProblems(Without(problems, p));
    assert SolvedProblems(problems) == rest + if HasAc(problems[p]) then {p} else {};
  }

  lemma {:induction false} PenaltyOverDetails(problems: map<string, seq<Submission>>, details: map<string, ProblemDetail>)
    requires details.Keys == problems.Keys && forall p | p in problems :: details[p] == Detail(problems[p])
    ensures Sum(problems, Penalty) == Sum(details, DetailPenalty)
    decreases problems.Keys
  {
    if problems.Keys != {} {
      var p := PickKey(problems);
      SumPick(details, DetailPenalty, p);
      PenaltyOverDetails(Without(problems, p), Without(details, p));
    }
  }

  /** The totals of a score by the rules. */
  lemma TotalsAreIcpc(record: UserRecord)
    ensures var r := ScoreOf(record);
            && r.score == r.solved * 10_000_000 - r.penalty
            && r.solved == |SolvedProblems(record.problems)|
            && r.penalty == Sum(r.details, DetailPenalty)
  {
    SolvedIsCardinality(record.problems);
    PenaltyOverDetails(record.problems, ScoreOf(record).details);
  }

  /** Rescoring follows the ICPC rules. */
  lemma ScoreIsIcpc(record: UserRecord)
    ensures IcpcScore(ScoreOf(record), record.problems)
  {
    TotalsAreIcpc(record);
    forall p | p in record.problems ensures IcpcProblem(ScoreOf(record).details[p], record.problems[p]) {
      DetailIsIcpc(record.problems[p]);
    }
  }

  /** One problem: sort, then stop at the first AC, counting charged attempts on the way. */
  method ScanProblem(submissions: seq<Submission>) returns (detail: ProblemDetail)
    ensures detail == Detail(submissions)
  {
    var sorted := SortByTime(submissions);
    var isSolved, wrongAttemptsBeforeAC: nat, scoreTime := false, 0, 0;
    var i := 0;
    while i < |sorted|
      invariant 0 <= i <= |sorted|
      invariant !isSolved && scoreTime == 0
      invariant var rest := Scan(sorted[i..]);
                Scan(sorted) == rest.(wrongAttemptsBeforeAC := wrongAttemptsBeforeAC + rest.wrongAttemptsBeforeAC)
    {
      var sub := sorted[i];
      assert sorted[i..][1..] == sorted[i + 1..];
      if sub.status == "AC" {
        isSolved := true;
        scoreTime := sub.relativeSubmittedAt;
        break;
      } else if sub.status in {"WA", "TLE", "MLE", "RE"} {
        wrongAttemptsBeforeAC := wrongAttemptsBeforeAC + 1;
      }
      i := i + 1;
    }
    SortAndScanIsClosedForm(submissions);
    detail := ProblemDetail(ProblemScore(isSolved, wrongAttemptsBeforeAC, scoreTime), sorted);
  }

  /** The loop over the problems.  The order in which they are visited is left open. */
  method ScanProblems(problems: map<string, seq<Submission>>)
    returns (solvedCount: int, totalPenalty: int, details: map<string, ProblemDetail>)
    ensures solvedCount == Sum(problems, SolvedUnits) && totalPenalty == Sum(problems, Penalty)
    ensures details == map p | p in problems :: Detail(problems[p])
  {
    solvedCount, totalPenalty, details := 0, 0, map[];
    var rest := problems;
    while rest.Keys != {}
      invariant rest.Keys <= problems.Keys
      invariant forall p | p in rest :: rest[p] == problems[p]
      invariant Sum(problems, SolvedUnits) == solvedCount + Sum(rest, SolvedUnits)
      invariant Sum(problems, Penalty) == totalPenalty + Sum(rest, Penalty)
      invariant details.Keys == problems.Keys - rest.Keys
      invariant forall p | p in details :: details[p] == Detail(problems[p])
      decreases rest.Keys
    {
      var probId :| probId in rest.Keys;
      var detail := ScanProblem(problems[probId]);
      SumPick(rest, SolvedUnits, probId);
      SumPick(rest, Penalty, probId);
      if detail.score.solved {
        solvedCount := solvedCount + 1;
        var penaltyForProblem := detail.score.scoreTime + detail.score.wrongAttemptsBeforeAC * WRONG_ATTEMPT_COST;
        totalPenalty := totalPenalty + penaltyForProblem;
      }
      details := details[probId := detail];
      rest := Without(rest, probId);
    }
  }

  /** The whole rescoring: the closed form, and totals by the ICPC rules. */
  method ComputeUserScores(metadata: UserRecord) returns (r: UserScore)
    ensures r == ScoreOf(metadata)
    ensures r.score == r.solved * 10_000_000 - r.penalty
    ensures r.solved == |SolvedProblems(metadata.problems)|
    ensures r.penalty == Sum(r.details, DetailPenalty)
  {
    var solvedCount, totalPenalty, details := ScanProblems(metadata.problems);
    r := UserScore(solvedCount * PENALTY_OFFSET - totalPenalty, solvedCount, totalPenalty, details);
    TotalsAreIcpc(metadata);
  }
}
