/** Laws of the score: what arrival order may change, what one more verdict changes, and what the
    packed number orders by.  Source: leaderboard-service/src/services/scoring.service.ts. */
module OrderLaws {
  import opened Tally
  import opened Scoring
  import Seqs

  // ---------------------------------------------------------------- arrival order

  /** No charged verdict was submitted at exactly the time of the earliest AC. */
  ghost predicate NoTie(s: seq<Submission>) {
    var f := FirstAc(s);
    f >= 0 ==> forall j | 0 <= j < |s| && IsWrong(s[j]) :: s[j].relativeSubmittedAt != s[f].relativeSubmittedAt
  }

  lemma {:induction false} CountSplit(a: seq<Submission>, b: seq<Submission>, t: int)
    ensures CountUpTo(a + b, t) == CountUpTo(a, t) + CountUpTo(b, t)
    ensures CountWrong(a + b) == CountWrong(a) + CountWrong(b)
  {
    if a == [] {
      assert a + b == b;
    } else {
      assert (a + b)[1..] == a[1..] + b;
      CountSplit(a[1..], b, t);
    }
  }

  lemma CountRemove(s: seq<Submission>, k: nat, t: int)
    requires k < |s|
    ensures var rest := s[..k] + s[k + 1..];
            && CountUpTo(s, t) == CountUpTo(rest, t) + (if IsWrong(s[k]) && s[k].relativeSubmittedAt <= t then 1 else 0)
            && CountWrong(s) == CountWrong(rest) + (if IsWrong(s[k]) then 1 else 0)
  {
    var l, r := s[..k], s[k + 1..];
    assert s == (l + [s[k]]) + r;
    CountSplit(l + [s[k]], r, t);
    CountUpToAppend(l, s[k], t);
    CountSplit(l, r, t);
  }

  /** Counting does not depend on the arrival order. */
  lemma {:induction false} CountPermutation(a: seq<Submission>, b: seq<Submission>, t: int)
    requires multiset(a) == multiset(b)
    ensures CountUpTo(a, t) == CountUpTo(b, t)
    ensures CountWrong(a) == CountWrong(b)
  {
    if a == [] {
      assert |multiset(b)| == 0;
    } else {
      var k := Seqs.RemoveSame(a, b);
      CountPermutation(a[1..], b[..k] + b[k + 1..], t);
      CountRemove(b, k, t);
    }
  }

  /** With nothing charged at time `t`, the arrival index does not matter. */
  lemma {:induction false} CountBeforeNoTie(s: seq<Submission>, t: int, i: int)
    requires forall j | 0 <= j < |s| && IsWrong(s[j]) :: s[j].relativeSubmittedAt != t
    ensures CountBefore(s, t, i) == CountUpTo(s, t)
  {
    if s != [] {
      var last := |s| - 1;
      assert s == s[..last] + [s[last]];
      CountUpToAppend(s[..last], s[last], t);
      CountBeforeNoTie(s[..last], t, i);
    }
  }

  lemma EarliestNotLater(a: seq<Submission>, x: Submission)
    requires x in a && IsAc(x)
    ensures FirstAc(a) >= 0 && a[FirstAc(a)].relativeSubmittedAt <= x.relativeSubmittedAt
  {
    FirstAcIsEarliest(a);
    var k :| 0 <= k < |a| && a[k] == x;
    assert k != FirstAc(a) ==> !Earlier(a, k, a[FirstAc(a)].relativeSubmittedAt, FirstAc(a));
  }

  lemma EarliestTimePermutation(a: seq<Submission>, b: seq<Submission>)
    requires multiset(a) == multiset(b)
    ensures FirstAc(a) == -1 <==> FirstAc(b) == -1
    ensures FirstAc(a) >= 0 ==> a[FirstAc(a)].relativeSubmittedAt == b[FirstAc(b)].relativeSubmittedAt
  {
    Seqs.MultisetMembers(a, b);
    if FirstAc(a) >= 0 {
      FirstAcIsEarliest(a);
      EarliestNotLater(b, a[FirstAc(a)]);
    }
    if FirstAc(b) >= 0 {
      FirstAcIsEarliest(b);
      EarliestNotLater(a, b[FirstAc(b)]);
    }
  }

  lemma NoTiePermutation(a: seq<Submission>, b: seq<Submission>)
    requires multiset(a) == multiset(b) && NoTie(a)
    ensures NoTie(b)
  {
    EarliestTimePermutation(a, b);
    Seqs.MultisetMembers(a, b);
    if FirstAc(b) >= 0 {
      forall j | 0 <= j < |b| && IsWrong(b[j]) ensures b[j].relativeSubmittedAt != b[FirstAc(b)].relativeSubmittedAt {
        assert b[j] in a;
      }
    }
  }

  lemma ResultPermutation(a: seq<Submission>, b: seq<Submission>)
    requires multiset(a) == multiset(b) && NoTie(a)
    ensures ProblemResult(a) == ProblemResult(b)
  {
    EarliestTimePermutation(a, b);
    NoTiePermutation(a, b);
    if FirstAc(a) >= 0 {
      var t := a[FirstAc(a)].relativeSubmittedAt;
      CountPermutation(a, b, t);
      CountBeforeNoTie(a, t, FirstAc(a));
      CountBeforeNoTie(b, t, FirstAc(b));
    } else {
      CountPermutation(a, b, 0);
    }
  }

  lemma {:induction false} FirstAcPrepend(x: Submission, s: seq<Submission>)
    requires !IsAc(x)
    ensures FirstAc([x] + s) == if FirstAc(s) == -1 then -1 else FirstAc(s) + 1
  {
    if s != [] {
      var last := |s| - 1;
      FirstAcPrepend(x, s[..last]);
      assert ([x] + s)[..|s|] == [x] + s[..last];
    } else {
      assert ([x] + s)[..0] == [];
    }
  }

  lemma {:induction false} CountBeforePrepend(x: Submission, s: seq<Submission>, t: int, i: nat)
    requires IsWrong(x) && x.relativeSubmittedAt <= t
    ensures CountBefore([x] + s, t, i + 1) == 1 + CountBefore(s, t, i)
  {
    if s != [] {
      var last := |s| - 1;
      CountBeforePrepend(x, s[..last], t, i);
      assert ([x] + s)[..|s|] == [x] + s[..last];
    } else {
      assert ([x] + s)[..0] == [];
    }
  }

  lemma TieEarly(rest: seq<Submission>, x: Submission)
    requires IsWrong(x) && FirstAc(rest) >= 0
    requires x.relativeSubmittedAt == rest[FirstAc(rest)].relativeSubmittedAt
    ensures var r := ProblemResult(rest);
            ProblemResult([x] + rest) == r.(wrongAttemptsBeforeAC := r.wrongAttemptsBeforeAC + 1) && r.solved
  {
    FirstAcPrepend(x, rest);
    CountBeforePrepend(x, rest, x.relativeSubmittedAt, FirstAc(rest));
  }

  lemma TieLate(rest: seq<Submission>, x: Submission)
    requires IsWrong(x) && FirstAc(rest) >= 0
    requires x.relativeSubmittedAt == rest[FirstAc(rest)].relativeSubmittedAt
    ensures ProblemResult(rest + [x]) == ProblemResult(rest)
  {
    FirstAcAppend(rest, x);
    CountBeforeAppend(rest, x, x.relativeSubmittedAt, FirstAc(rest));
  }

  /** A tied charged verdict counts when it arrives first and does not when it arrives last. */
  lemma TieMatters(rest: seq<Submission>, x: Submission)
    requires IsWrong(x) && FirstAc(rest) >= 0
    requires x.relativeSubmittedAt == rest[FirstAc(rest)].relativeSubmittedAt
    ensures var early, late := ProblemResult([x] + rest), ProblemResult(rest + [x]);
            early == late.(wrongAttemptsBeforeAC := late.wrongAttemptsBeforeAC + 1) && late.solved
  {
    TieEarly(rest, x);
    TieLate(rest, x);
  }

  /** Takes the tied verdict out of a list. */
  lemma SplitTie(s: seq<Submission>) returns (rest: seq<Submission>, x: Submission)
    requires !NoTie(s)
    ensures multiset([x] + rest) == multiset(s) && multiset(rest + [x]) == multiset(s)
    ensures IsWrong(x) && FirstAc(rest) >= 0 && x.relativeSubmittedAt == rest[FirstAc(rest)].relativeSubmittedAt
  {
    var f := FirstAc(s);
    var j :| 0 <= j < |s| && IsWrong(s[j]) && s[j].relativeSubmittedAt == s[f].relativeSubmittedAt;
    x := s[j];
    rest := s[..j] + s[j + 1..];
    assert s == s[..j] + [x] + s[j + 1..];
    EarliestTimePermutation(s, [x] + rest);
    FirstAcPrepend(x, rest);
  }

  /** The result of a problem is the same for every arrival order exactly when no charged verdict
      ties with the earliest AC. */
  lemma OrderIndependentIffNoTie(s: seq<Submission>)
    ensures NoTie(s) <==> forall p: seq<Submission> | multiset(p) == multiset(s) :: ProblemResult(p) == ProblemResult(s)
  {
    if NoTie(s) {
      forall p: seq<Submission> | multiset(p) == multiset(s) ensures ProblemResult(p) == ProblemResult(s) {
        ResultPermutation(s, p);
      }
    } else {
      var rest, x := SplitTie(s);
      TieMatters(rest, x);
      assert ProblemResult([x] + rest) != ProblemResult(s) || ProblemResult(rest + [x]) != ProblemResult(s);
    }
  }

  // ---------------------------------------------------------------- one more verdict

  function ListOf(record: UserRecord, p: string): seq<Submission> {
    if p in record.problems then record.problems[p] else []
  }

  /** Appends a submission to one problem of the record. */
  function AddSubmission(record: UserRecord, p: string, x: Submission): UserRecord {
    UserRecord(record.problems[p := ListOf(record, p) + [x]], record.processedSubmissions + [x.submissionId])
  }

  /** What the arrival of `x` does to the solved count and to the penalty, read off the problem's list so far. */
  function SolvedDelta(s: seq<Submission>, x: Submission): int {
    if IsAc(x) && !ProblemResult(s).solved then 1 else 0
  }

  function PenaltyDelta(s: seq<Submission>, x: Submission): int {
    var r := ProblemResult(s);
    var t := x.relativeSubmittedAt;
    if IsAc(x) && !r.solved then t + WRONG_ATTEMPT_COST * CountUpTo(s, t)
    else if IsAc(x) && t < r.scoreTime then
      -((r.scoreTime - t) + WRONG_ATTEMPT_COST * (r.wrongAttemptsBeforeAC - CountUpTo(s, t)))
    else if IsWrong(x) && r.solved && t < r.scoreTime then WRONG_ATTEMPT_COST
    else 0
  }

  function ScoreDelta(s: seq<Submission>, x: Submission): int {
    SolvedDelta(s, x) * PENALTY_OFFSET - PenaltyDelta(s, x)
  }

  lemma SumAppend(record: UserRecord, p: string, x: Submission, f: seq<Submission> -> int)
    requires f([]) == 0
    ensures Sum(AddSubmission(record, p, x).problems, f) - Sum(record.problems, f) ==
            f(ListOf(record, p) + [x]) - f(ListOf(record, p))
  {
    SumUpdate(record.problems, f, p, ListOf(record, p) + [x]);
    if p in record.problems {
      SumPick(record.problems, f, p);
    } else {
      assert Without(record.problems, p) == record.problems;
    }
  }

  lemma PenaltyAppend(s: seq<Submission>, x: Submission)
    ensures SolvedUnits(s + [x]) - SolvedUnits(s) == SolvedDelta(s, x)
    ensures Penalty(s + [x]) - Penalty(s) == PenaltyDelta(s, x)
  {
    ProblemResultAppend(s, x);
  }

  /** The incremental law: rescoring after one more verdict moves solved count, penalty and score by
      exactly these amounts. */
  lemma ScoreAfterOneMore(record: UserRecord, p: string, x: Submission)
    ensures var after, s := AddSubmission(record, p, x), ListOf(record, p);
            && SolvedOf(after) == SolvedOf(record) + SolvedDelta(s, x)
            && PenaltyOf(after) == PenaltyOf(record) + PenaltyDelta(s, x)
            && PackedScore(after) == PackedScore(record) + ScoreDelta(s, x)
  {
    var s := ListOf(record, p);
    SumAppend(record, p, x, SolvedUnits);
    SumAppend(record, p, x, Penalty);
    PenaltyAppend(s, x);
  }

  lemma {:induction false} CountUpToWithin(s: seq<Submission>, t: int, bound: int, i: int)
    requires t < bound
    ensures CountUpTo(s, t) <= CountBefore(s, bound, i)
  {
    if s != [] {
      var last := |s| - 1;
      assert s == s[..last] + [s[last]];
      CountUpToAppend(s[..last], s[last], t);
      CountUpToWithin(s[..last], t, bound, i);
    }
  }

  /** A verdict that is not an AC never raises the score; an AC lowers it exactly when it is the first
      of its problem and the problem then costs more than one solved problem is worth. */
  lemma ScoreMonotonicity(record: UserRecord, p: string, x: Submission)
    ensures var before, after := PackedScore(record), PackedScore(AddSubmission(record, p, x));
            var s := ListOf(record, p);
            && (!IsAc(x) ==> after <= before)
            && (IsAc(x) ==> (after < before <==> !ProblemResult(s).solved && Penalty(s + [x]) > PENALTY_OFFSET))
  {
    var s := ListOf(record, p);
    var r := ProblemResult(s);
    ScoreAfterOneMore(record, p, x);
    PenaltyAppend(s, x);
    ProblemResultAppend(s, x);
    if IsAc(x) && r.solved && x.relativeSubmittedAt < r.scoreTime {
      CountUpToWithin(s, x.relativeSubmittedAt, r.scoreTime, FirstAc(s));
    }
  }

  // ---------------------------------------------------------------- the packed key

  /** All submission times of the record lie within the contest. */
  ghost predicate TimesWithin(problems: map<string, seq<Submission>>, length: int) {
    forall p, i | p in problems && 0 <= i < |problems[p]| :: 0 <= problems[p][i].relativeSubmittedAt <= length
  }

  function Charged(subs: seq<Submission>): int {
    CountWrong(subs)
  }

  ghost function AttemptsOf(record: UserRecord): int {
    Sum(record.problems, Charged)
  }

  lemma {:induction false} CountBeforeAtMost(s: seq<Submission>, t: int, i: int)
    ensures CountBefore(s, t, i) <= CountWrong(s)
  {
    if s != [] {
      var last := |s| - 1;
      assert s == s[..last] + [s[last]];
      CountUpToAppend(s[..last], s[last], t);
      CountBeforeAtMost(s[..last], t, i);
    }
  }

  lemma ProblemPenaltyBound(s: seq<Submission>, length: nat)
    requires forall i | 0 <= i < |s| :: 0 <= s[i].relativeSubmittedAt <= length
    ensures SolvedUnits(s) == 0 ==> Penalty(s) == 0
    ensures 0 <= Penalty(s) <= length + WRONG_ATTEMPT_COST * Charged(s)
  {
    var f := FirstAc(s);
    if f >= 0 {
      CountBeforeAtMost(s, s[f].relativeSubmittedAt, f);
    }
  }

  lemma {:induction false} SumsNotNegative(problems: map<string, seq<Submission>>)
    ensures 0 <= Sum(problems, SolvedUnits) <= |problems.Keys|
    ensures 0 <= Sum(problems, Charged)
    decreases problems.Keys
  {
    if problems.Keys != {} {
      var rest := Without(problems, PickKey(problems));
      assert |rest.Keys| == |problems.Keys| - 1;
      SumsNotNegative(rest);
    }
  }

  lemma BoundStep(u: int, us: int, p: int, ps: int, c: int, cs: int, length: nat)
    requires 0 <= u <= 1 && (u == 0 ==> p == 0) && 0 <= c
    requires 0 <= p <= length + WRONG_ATTEMPT_COST * c
    requires 0 <= ps <= us * length + WRONG_ATTEMPT_COST * cs
    ensures 0 <= p + ps <= (u + us) * length + WRONG_ATTEMPT_COST * (c + cs)
  {
    assert (u + us) * length == u * length + us * length;
  }

  lemma {:induction false} PenaltyBoundOver(problems: map<string, seq<Submission>>, length: nat)
    requires TimesWithin(problems, length)
    ensures 0 <= Sum(problems, Penalty) <= Sum(problems, SolvedUnits) * length + WRONG_ATTEMPT_COST * Sum(problems, Charged)
    decreases problems.Keys
  {
    if problems.Keys != {} {
      var p := PickKey(problems);
      var s, rest := problems[p], Without(problems, p);
      PenaltyBoundOver(rest, length);
      ProblemPenaltyBound(s, length);
      BoundStep(SolvedUnits(s), Sum(rest, SolvedUnits), Penalty(s), Sum(rest, Penalty), Charged(s), Sum(rest, Charged), length);
    }
  }

  ghost function PenaltyBound(record: UserRecord, length: nat): int {
    SolvedOf(record) * length + WRONG_ATTEMPT_COST * AttemptsOf(record)
  }

  /** Within a contest whose penalty bound stays below the offset, the packed score orders exactly by
      problems solved and then by smaller penalty, and equal scores mean equal pairs. */
  lemma PackedScoreIsLexicographic(a: UserRecord, b: UserRecord, length: nat)
    requires TimesWithin(a.problems, length) && TimesWithin(b.problems, length)
    requires PenaltyBound(a, length) < PENALTY_OFFSET && PenaltyBound(b, length) < PENALTY_OFFSET
    ensures PackedScore(a) > PackedScore(b) <==>
            SolvedOf(a) > SolvedOf(b) || (SolvedOf(a) == SolvedOf(b) && PenaltyOf(a) < PenaltyOf(b))
    ensures PackedScore(a) == PackedScore(b) <==> SolvedOf(a) == SolvedOf(b) && PenaltyOf(a) == PenaltyOf(b)
  {
    PenaltyBoundOver(a.problems, length);
    PenaltyBoundOver(b.problems, length);
  }

  /** The sorted set stores scores as doubles; below 900 million problems they are exact. */
  lemma PackedScoreIsExactDouble(a: UserRecord, length: nat)
    requires TimesWithin(a.problems, length) && PenaltyBound(a, length) < PENALTY_OFFSET
    requires |a.problems.Keys| <= 900_000_000
    ensures -0x20_0000_0000_0000 < PackedScore(a) < 0x20_0000_0000_0000
  {
    PenaltyBoundOver(a.problems, length);
    SumsNotNegative(a.problems);
  }

  // ---------------------------------------------------------------- how far the packed key reaches

  /** A record of a contest with this many problems, of this length, within this many charged attempts. */
  ghost predicate InContest(record: UserRecord, problems: nat, length: nat, attempts: nat) {
    |record.problems.Keys| <= problems && TimesWithin(record.problems, length) && AttemptsOf(record) <= attempts
  }

  ghost predicate OrderedBySolvedThenPenalty(a: UserRecord, b: UserRecord) {
    PackedScore(a) > PackedScore(b) <==>
    SolvedOf(a) > SolvedOf(b) || (SolvedOf(a) == SolvedOf(b) && PenaltyOf(a) < PenaltyOf(b))
  }

  function NameOf(k: nat): (name: string)
    ensures |name| == k
  {
    if k == 0 then "" else NameOf(k - 1) + "p"
  }

  function Charges(w: nat, t: int): seq<Submission> {
    if w == 0 then [] else Charges(w - 1, t) + [Submission("", t, "WA")]
  }

  /** `k` problems solved at time `t`, the first of them after `w` charged attempts at that same time. */
  ghost function Solves(k: nat, t: int, w: nat): UserRecord {
    if k == 0 then UserRecord(map[NameOf(1) := Charges(w, t)], [])
    else AddSubmission(Solves(k - 1, t, w), NameOf(k), Submission("", t, "AC"))
  }

  lemma {:induction false} ChargesCount(w: nat, t: int)
    ensures CountUpTo(Charges(w, t), t) == CountWrong(Charges(w, t)) == w
    ensures ProblemResult(Charges(w, t)) == ProblemScore(false, w, 0)
    ensures forall i | 0 <= i < |Charges(w, t)| :: Charges(w, t)[i].relativeSubmittedAt == t
  {
    if w > 0 {
      ChargesCount(w - 1, t);
      var s, x := Charges(w - 1, t), Submission("", t, "WA");
      CountUpToAppend(s, x, t);
      ProblemResultAppend(s, x);
    }
  }

  /** The problems added are new, and there are no more of them than solved ones. */
  lemma {:induction false} SolvesKeys(k: nat, t: int, w: nat)
    ensures |Solves(k, t, w).problems.Keys| <= if k == 0 then 1 else k
    ensures forall p :: p in Solves(k, t, w).problems ==> |p| <= if k == 0 then 1 else k
  {
    if k > 1 {
      SolvesKeys(k - 1, t, w);
      assert Solves(k, t, w).problems.Keys == Solves(k - 1, t, w).problems.Keys + {NameOf(k)};
    } else {
      assert Solves(0, t, w).problems.Keys == {NameOf(1)};
      assert k == 1 ==> Solves(1, t, w).problems.Keys == {NameOf(1)};
    }
  }

  lemma {:induction false} SolvesTimes(k: nat, t: int, w: nat)
    ensures forall p, i | p in Solves(k, t, w).problems && 0 <= i < |Solves(k, t, w).problems[p]| ::
              Solves(k, t, w).problems[p][i].relativeSubmittedAt == t
  {
    ChargesCount(w, t);
    if k > 0 {
      SolvesTimes(k - 1, t, w);
    }
  }

  lemma NextProblem(k: nat, t: int, w: nat)
    ensures ListOf(Solves(k, t, w), NameOf(k + 1)) == if k == 0 then Charges(w, t) else []
  {
    SolvesKeys(k, t, w);
  }

  lemma SolvesNothing(t: int, w: nat)
    ensures SolvedOf(Solves(0, t, w)) == PenaltyOf(Solves(0, t, w)) == 0
    ensures AttemptsOf(Solves(0, t, w)) == w
  {
    ChargesCount(w, t);
    var none: map<string, seq<Submission>> := map[];
    assert Solves(0, t, w).problems == none[NameOf(1) := Charges(w, t)];
    SumUpdate(none, SolvedUnits, NameOf(1), Charges(w, t));
    SumUpdate(none, Penalty, NameOf(1), Charges(w, t));
    SumUpdate(none, Charged, NameOf(1), Charges(w, t));
  }

  lemma SolvesOneMore(k: nat, t: int, w: nat)
    ensures var before, after := Solves(k, t, w), Solves(k + 1, t, w);
            && SolvedOf(after) == SolvedOf(before) + 1
            && PenaltyOf(after) == PenaltyOf(before) + t + (if k == 0 then WRONG_ATTEMPT_COST * w else 0)
            && AttemptsOf(after) == AttemptsOf(before)
  {
    var before, x, s := Solves(k, t, w), Submission("", t, "AC"), ListOf(Solves(k, t, w), NameOf(k + 1));
    ChargesCount(w, t);
    NextProblem(k, t, w);
    ScoreAfterOneMore(before, NameOf(k + 1), x);
    SumAppend(before, NameOf(k + 1), x, Charged);
    CountUpToAppend(s, x, t);
  }

  lemma {:induction false} SolvesTotals(k: nat, t: int, w: nat)
    ensures SolvedOf(Solves(k, t, w)) == k
    ensures PenaltyOf(Solves(k, t, w)) == if k == 0 then 0 else k * t + WRONG_ATTEMPT_COST * w
    ensures AttemptsOf(Solves(k, t, w)) == w
  {
    if k == 0 {
      SolvesNothing(t, w);
    } else {
      SolvesTotals(k - 1, t, w);
      SolvesOneMore(k - 1, t, w);
      TimesOneMore(k - 1, t);
    }
  }

  lemma TimesOneMore(k: int, t: int)
    ensures (k + 1) * t == k * t + t
  {
  }

  lemma SolvesInContest(k: nat, t: nat, w: nat, n: nat, length: nat, attempts: nat)
    requires k <= n && n >= 1 && t <= length && w <= attempts
    ensures InContest(Solves(k, t, w), n, length, attempts)
  {
    SolvesTotals(k, t, w);
    SolvesKeys(k, t, w);
    SolvesTimes(k, t, w);
  }

  /** The records that come closest: everything solved as late and as badly as the contest allows, and
      one problem fewer solved at once. */
  lemma ClosestScores(n: nat, length: nat, attempts: nat)
    requires n >= 1 && n * length + WRONG_ATTEMPT_COST * attempts >= PENALTY_OFFSET
    ensures !OrderedBySolvedThenPenalty(Solves(n, length, attempts), Solves(n - 1, 0, 0))
  {
    var late, quick := Solves(n, length, attempts), Solves(n - 1, 0, 0);
    SolvesTotals(n, length, attempts);
    SolvesTotals(n - 1, 0, 0);
    assert PenaltyOf(quick) == 0;
    TimesOneMore(n - 1, PENALTY_OFFSET);
    assert PackedScore(late) <= PackedScore(quick);
  }

  lemma PenaltyBoundInContest(a: UserRecord, n: nat, length: nat, attempts: nat)
    requires InContest(a, n, length, attempts)
    ensures PenaltyBound(a, length) <= n * length + WRONG_ATTEMPT_COST * attempts
  {
    SumsNotNegative(a.problems);
    TimesAtMost(SolvedOf(a), n, length);
  }

  lemma TimesAtMost(x: int, y: int, z: nat)
    requires x <= y
    ensures x * z <= y * z
  {
  }

  /** The sharp bound: in a contest of `n` problems and this length, the packed score orders all records
      with up to so many charged attempts by problems solved and then by penalty exactly if solving
      everything at the last moment after all those attempts costs less than one problem is worth. */
  lemma PackedKeyReaches(n: nat, length: nat, attempts: nat)
    requires n >= 1
    ensures (forall a, b | InContest(a, n, length, attempts) && InContest(b, n, length, attempts) ::
               OrderedBySolvedThenPenalty(a, b))
            <==> n * length + WRONG_ATTEMPT_COST * attempts < PENALTY_OFFSET
  {
    if n * length + WRONG_ATTEMPT_COST * attempts < PENALTY_OFFSET {
      forall a, b | InContest(a, n, length, attempts) && InContest(b, n, length, attempts)
        ensures OrderedBySolvedThenPenalty(a, b)
      {
        PenaltyBoundInContest(a, n, length, attempts);
        PenaltyBoundInContest(b, n, length, attempts);
        PackedScoreIsLexicographic(a, b, length);
      }
    } else {
      SolvesInContest(n, length, attempts, n, length, attempts);
      SolvesInContest(n - 1, 0, 0, n, length, attempts);
      ClosestScores(n, length, attempts);
    }
  }

  /** Far beyond the bound the order turns round: one AC after ten million seconds ranks below solving nothing. */
  lemma PackedScoreInverts(id: string, problem: string)
    ensures var none := UserRecord(map[], []);
            var one := AddSubmission(none, problem, Submission(id, 10_000_001, "AC"));
            SolvedOf(one) > SolvedOf(none) && PackedScore(one) < PackedScore(none)
  {
    var none := UserRecord(map[], []);
    var x := Submission(id, 10_000_001, "AC");
    ScoreAfterOneMore(none, problem, x);
    SumAppend(none, problem, x, SolvedUnits);
    ProblemResultAppend([], x);
  }
}
