/** Judging one submission: execution-engine/worker/worker.go, execution-engine/worker/execute.go,
    execution-engine/worker/formatter.go and the user half of execution-engine/worker/compile.go.
    Sandbox runs are oracles: what isolate reports for each test, or nothing when its report is missing. */
module Judging {
  import opened Options
  import opened Decimal

  /** The statuses the engine gives. */
  datatype Status = AC | WA | TLE | RE | SIGSEGV | SIGXFSZ | SIGFPE | SIGABRT | NZEC | CE | FAIL | INT

  /** isolate's own status field. */
  datatype IsolateStatus = TO | SG | RuntimeError | XX | Clean

  datatype IsolateMetadata = IsolateMetadata(time: real, memory: int, exitCode: int, exitSig: int, status: IsolateStatus)

  type Run = Option<IsolateMetadata>

  datatype Result = Result(test: nat, time: real, memory: int, status: Status)

  datatype Verdict = Verdict(status: Status, time: int, memory: int, results: seq<Result>)

  datatype StatusMessage = StatusMessage(submissionId: string, running: bool, status: string, time: int, memory: int)

  /** What the leaderboard is told of a rated submission. */
  datatype Report = Report(submissionId: string, status: Status)

  /** What compiling the user's code ended in. */
  datatype UserCompile = Compiled | NoBinary(report: Run)

  function StatusText(s: Status): string {
    match s
    case AC => "AC" case WA => "WA" case TLE => "TLE" case RE => "RE"
    case SIGSEGV => "SIGSEGV" case SIGXFSZ => "SIGXFSZ" case SIGFPE => "SIGFPE" case SIGABRT => "SIGABRT"
    case NZEC => "NZEC" case CE => "CE" case FAIL => "FAIL" case INT => "INT"
  }

  // ---------------------------------------------------------------- formatting a run

  function FormatIsolateMetadata(m: IsolateMetadata, isChecker: bool): Status {
    match m.status
    case TO => TLE
    case SG =>
      if m.exitSig == 11 then SIGSEGV
      else if m.exitSig == 25 then SIGXFSZ
      else if m.exitSig == 8 then SIGFPE
      else if m.exitSig == 6 then SIGABRT
      else RE
    case RuntimeError =>
      if isChecker then (if m.exitCode == 1 || m.exitCode == 2 then WA else FAIL) else NZEC
    case XX => INT
    case Clean => AC
  }

  function FormatResult(run: Run, status: Status): Result {
    if run.Some? && status != INT then Result(0, run.value.time, run.value.memory, status)
    else Result(0, 0.0, 0, status)
  }

  function ExecuteUserCode(run: Run): Result {
    if run.None? then FormatResult(run, INT) else FormatResult(run, FormatIsolateMetadata(run.value, false))
  }

  function ExecuteChecker(run: Run): Result {
    if run.None? then FormatResult(run, INT)
    else
      var status := FormatIsolateMetadata(run.value, true);
      if status == INT then FormatResult(run, INT)
      else if status != AC && status != WA then FormatResult(run, FAIL)
      else FormatResult(run, status)
  }

  /** The result that ends a submission whose user code has no binary. */
  function CompileFailure(report: Run): Result {
    if report.None? then FormatResult(report, INT)
    else
      var status := FormatIsolateMetadata(report.value, false);
      if status == INT || status == AC then FormatResult(report, INT) else FormatResult(report, CE)
  }

  /** Whatever the checker does, its result enters the loop as one of four statuses. */
  lemma CheckerStatuses(run: Run)
    ensures ExecuteChecker(run).status in {AC, WA, FAIL, INT}
    ensures ExecuteChecker(run).status == WA <==> run.Some? && run.value.status.RuntimeError? && run.value.exitCode in {1, 2}
    ensures ExecuteChecker(run).status == AC <==> run.Some? && run.value.status.Clean?
  {
  }

  // ---------------------------------------------------------------- what reports mean

  predicate Reports(run: Run, status: IsolateStatus) {
    run.Some? && run.value.status == status
  }

  predicate Signalled(run: Run, sig: int) {
    Reports(run, SG) && run.value.exitSig == sig
  }

  /** The status of a user's run, from the sandbox report alone. */
  predicate UserMeans(status: Status, run: Run) {
    && (status == AC <==> Reports(run, Clean))
    && (status == TLE <==> Reports(run, TO))
    && (status == NZEC <==> Reports(run, RuntimeError))
    && (status == INT <==> run.None? || Reports(run, XX))
    && (status == SIGSEGV <==> Signalled(run, 11))
    && (status == SIGXFSZ <==> Signalled(run, 25))
    && (status == SIGFPE <==> Signalled(run, 8))
    && (status == SIGABRT <==> Signalled(run, 6))
    && (status == RE <==> Reports(run, SG) && run.value.exitSig !in {11, 25, 8, 6})
  }

  /** The status of a checker's run: exit codes 1 and 2 reject the answer, and other failures are its own. */
  predicate CheckerMeans(status: Status, run: Run) {
    && (status == AC <==> Reports(run, Clean))
    && (status == WA <==> Reports(run, RuntimeError) && run.value.exitCode in {1, 2})
    && (status == INT <==> run.None? || Reports(run, XX))
    && (status == FAIL <==> (Reports(run, RuntimeError) && run.value.exitCode !in {1, 2}) || Reports(run, TO) || Reports(run, SG))
  }

  /** User code without a binary: its own fault unless the sandbox failed or reports no failure. */
  predicate CompileMeans(status: Status, report: Run) {
    && status in {CE, INT}
    && (status == CE <==> report.Some? && !Reports(report, XX) && !Reports(report, Clean))
  }

  lemma UserStatus(run: Run)
    ensures UserMeans(ExecuteUserCode(run).status, run)
  {
  }

  lemma CheckerStatus(run: Run)
    ensures CheckerMeans(ExecuteChecker(run).status, run)
  {
  }

  /** A compile error carries the compiler's cost, an internal error none. */
  lemma CompileStatus(report: Run)
    ensures var r := CompileFailure(report);
            && CompileMeans(r.status, report) && r.test == 0
            && (r.time, r.memory) == (if r.status == CE then (report.value.time, report.value.memory) else (0.0, 0))
  {
  }

  // ---------------------------------------------------------------- what one test contributes

  predicate Passed(user: nat -> Run, checker: nat -> Run, test: nat) {
    ExecuteUserCode(user(test)).status == AC && ExecuteChecker(checker(test)).status == AC
  }

  /** The entry of a test, from the user's run and the checker's status alone. */
  function TestResult(user: nat -> Run, checkerStatus: nat -> Status, test: nat): Result {
    var u := ExecuteUserCode(user(test));
    if u.status != AC then u.(test := test)
    else if checkerStatus(test) == AC || checkerStatus(test) == WA then Result(test, u.time, u.memory, checkerStatus(test))
    else Result(test, 0.0, 0, checkerStatus(test))
  }

  function StatusOf(checker: nat -> Run): nat -> Status {
    (test: nat) => ExecuteChecker(checker(test)).status
  }

  /** The recorded results of `n` tests: the entries up to and including the first test not passed. */
  ghost predicate Judged(results: seq<Result>, n: nat, user: nat -> Run, checker: nat -> Run) {
    && 1 <= |results| <= n
    && (forall i :: 0 <= i < |results| ==> results[i] == TestResult(user, StatusOf(checker), i + 1))
    && (forall k :: 1 <= k < |results| ==> Passed(user, checker, k))
    && (|results| < n ==> !Passed(user, checker, |results|))
  }

  lemma PassedIffAc(user: nat -> Run, checker: nat -> Run, test: nat)
    ensures Passed(user, checker, test) <==> TestResult(user, StatusOf(checker), test).status == AC
  {
  }

  /** The verdict is AC exactly when every test passes for user and checker; otherwise it is the status
      of the first test that does not, all earlier entries are AC, and nothing later is recorded. */
  lemma VerdictMeaning(results: seq<Result>, n: nat, user: nat -> Run, checker: nat -> Run)
    requires Judged(results, n, user, checker)
    ensures results[|results| - 1].status == AC <==> forall k :: 1 <= k <= n ==> Passed(user, checker, k)
    ensures results[|results| - 1].status != AC ==>
              !Passed(user, checker, |results|) && forall k :: 1 <= k < |results| ==> Passed(user, checker, k)
    ensures forall i :: 0 <= i < |results| - 1 ==> results[i].status == AC
    ensures forall i :: 0 <= i < |results| ==> results[i].test == i + 1
  {
    var last := |results| - 1;
    PassedIffAc(user, checker, last + 1);
    forall i | 0 <= i < last ensures results[i].status == AC {
      PassedIffAc(user, checker, i + 1);
    }
  }

  /** There is one possible result list. */
  lemma JudgedIsUnique(a: seq<Result>, b: seq<Result>, n: nat, user: nat -> Run, checker: nat -> Run)
    requires Judged(a, n, user, checker) && Judged(b, n, user, checker)
    ensures a == b
  {
  }

  /** Time and memory come from the user's run, and are zero when the sandbox or the checker failed. */
  lemma RecordedCost(user: nat -> Run, checker: nat -> Run, test: nat)
    ensures var r := TestResult(user, StatusOf(checker), test);
            && (r.status in {INT, FAIL} ==> r.time == 0.0 && r.memory == 0)
            && (r.status !in {INT, FAIL} ==> user(test).Some? && r.time == user(test).value.time
                                             && r.memory == user(test).value.memory)
  {
    CheckerStatuses(checker(test));
  }

  // ---------------------------------------------------------------- maxima

  /** `int64(x)`: truncation toward zero. */
  function Truncate(x: real): int {
    if x >= 0.0 then x.Floor else -((-x).Floor)
  }

  /** Whole milliseconds, cut off toward zero. */
  lemma MillisCutOff(r: Result)
    ensures r.time >= 0.0 ==> Millis(r) as real <= r.time * 1000.0 < Millis(r) as real + 1.0
    ensures r.time < 0.0 ==> Millis(r) as real - 1.0 < r.time * 1000.0 <= Millis(r) as real
  {
  }

  function Millis(r: Result): int {
    Truncate(r.time * 1000.0)
  }

  /** The largest of the entries' costs, and at least zero. */
  ghost predicate IsMaxCost(results: seq<Result>, time: int, memory: int) {
    && time >= 0 && memory >= 0
    && (forall i :: 0 <= i < |results| ==> Millis(results[i]) <= time && results[i].memory <= memory)
    && (time == 0 || exists i :: 0 <= i < |results| && Millis(results[i]) == time)
    && (memory == 0 || exists i :: 0 <= i < |results| && results[i].memory == memory)
  }

  lemma MaxCostUnique(results: seq<Result>, t1: int, m1: int, t2: int, m2: int)
    requires IsMaxCost(results, t1, m1) && IsMaxCost(results, t2, m2)
    ensures t1 == t2 && m1 == m2
  {
  }

  /** Checker cost never leaks: if two checkers give the same status on every test, everything recorded
      and both maxima are the same, however much time and memory each of them used. */
  lemma CheckerCostNeverLeaks(a: seq<Result>, b: seq<Result>, n: nat, user: nat -> Run, c1: nat -> Run, c2: nat -> Run,
                              t1: int, m1: int, t2: int, m2: int)
    requires forall k: nat :: ExecuteChecker(c1(k)).status == ExecuteChecker(c2(k)).status
    requires Judged(a, n, user, c1) && Judged(b, n, user, c2)
    requires IsMaxCost(a, t1, m1) && IsMaxCost(b, t2, m2)
    ensures a == b && t1 == t2 && m1 == m2
  {
    forall i | 0 <= i < |b| ensures b[i] == TestResult(user, StatusOf(c1), i + 1) {
      assert StatusOf(c1)(i + 1) == StatusOf(c2)(i + 1);
    }
    forall k: nat ensures Passed(user, c1, k) == Passed(user, c2, k) {
    }
    assert Judged(b, n, user, c1);
    JudgedIsUnique(a, b, n, user, c1);
    MaxCostUnique(a, t1, m1, t2, m2);
  }

  // ---------------------------------------------------------------- the worker

  function RunningOnTest(test: nat): string {
    "Running on test " + Itoa(test)
  }

  function ProgressTexts(n: nat): seq<string> {
    seq(n, i requires 0 <= i < n => RunningOnTest(i + 1))
  }

  /** The update sent for `text`: finished exactly when the job's verdict has this very status. */
  function Update(id: string, verdict: Option<Verdict>, text: string): StatusMessage {
    if verdict.None? then StatusMessage(id, true, text, 0, 0)
    else StatusMessage(id, StatusText(verdict.value.status) != text, text, verdict.value.time, verdict.value.memory)
  }

  function RunningUpdates(id: string, texts: seq<string>): seq<StatusMessage> {
    seq(|texts|, i requires 0 <= i < |texts| => Update(id, None, texts[i]))
  }

  lemma RunningUpdatesAppend(id: string, a: seq<string>, b: seq<string>)
    ensures RunningUpdates(id, a + b) == RunningUpdates(id, a) + RunningUpdates(id, b)
  {
  }

  /** Running updates of one submission. */
  ghost predicate AllRunning(ms: seq<StatusMessage>, id: string) {
    forall i :: 0 <= i < |ms| ==> ms[i].running && ms[i].submissionId == id
  }

  /** A finished submission's updates: running ones, then one that is not. */
  ghost predicate CompletedTrace(ms: seq<StatusMessage>, id: string) {
    && ms != []
    && AllRunning(ms[..|ms| - 1], id)
    && !ms[|ms| - 1].running && ms[|ms| - 1].submissionId == id
  }

  /** What judging announces: compilation, and then each test that is run. */
  function JudgingTexts(testsRun: nat): seq<string> {
    ["Compiling"] + ProgressTexts(testsRun)
  }

  /** Entries of compile failures and of problems without tests carry test number 0. */
  function TestsRun(results: seq<Result>): nat
    requires results != []
  {
    results[|results| - 1].test
  }

  /** What a job's results are, however far it gets. */
  ghost predicate Outcome(results: seq<Result>, checkerCompiles: bool, userCompile: UserCompile, n: nat,
                          user: nat -> Run, checker: nat -> Run) {
    && results != []
    && if !checkerCompiles then results == [Result(0, 0.0, 0, INT)]
       else if userCompile.NoBinary? then results == [CompileFailure(userCompile.report)]
       else if n == 0 then results == [Result(0, 0.0, 0, INT)]
       else Judged(results, n, user, checker)
  }

  predicate CleanTest(user: nat -> Run, checker: nat -> Run, k: nat) {
    Reports(user(k), Clean) && Reports(checker(k), Clean)
  }

  /** What decides a test that is the last one recorded. */
  predicate DecidedBy(status: Status, user: Run, checker: Run) {
    if Reports(user, Clean) then CheckerMeans(status, checker) else UserMeans(status, user)
  }

  /** A verdict with `recorded` entries, from the reports of compiles and runs alone. */
  ghost predicate VerdictMeans(status: Status, recorded: nat, checkerCompiles: bool, userCompile: UserCompile, n: nat,
                               user: nat -> Run, checker: nat -> Run) {
    && (status == AC <==> checkerCompiles && userCompile.Compiled? && n >= 1 && forall k | 1 <= k <= n :: CleanTest(user, checker, k))
    && (!checkerCompiles || (userCompile.Compiled? && n == 0) ==> status == INT)
    && (checkerCompiles && userCompile.NoBinary? ==> CompileMeans(status, userCompile.report))
    && (checkerCompiles && userCompile.Compiled? && n > 0 ==>
          && 1 <= recorded <= n
          && (forall k | 1 <= k < recorded :: CleanTest(user, checker, k))
          && (recorded < n ==> !CleanTest(user, checker, recorded))
          && DecidedBy(status, user(recorded), checker(recorded)))
  }

  lemma PassedIffClean(user: nat -> Run, checker: nat -> Run, k: nat)
    ensures Passed(user, checker, k) <==> CleanTest(user, checker, k)
  {
    UserStatus(user(k));
    CheckerStatus(checker(k));
  }

  lemma TestDecided(user: nat -> Run, checker: nat -> Run, k: nat)
    ensures DecidedBy(TestResult(user, StatusOf(checker), k).status, user(k), checker(k))
  {
    UserStatus(user(k));
    CheckerStatus(checker(k));
  }

  lemma JudgedMeans(results: seq<Result>, n: nat, user: nat -> Run, checker: nat -> Run)
    requires n > 0 && Judged(results, n, user, checker)
    ensures VerdictMeans(results[|results| - 1].status, |results|, true, Compiled, n, user, checker)
  {
    VerdictMeaning(results, n, user, checker);
    TestDecided(user, checker, |results|);
    forall k: nat ensures Passed(user, checker, k) <==> CleanTest(user, checker, k) {
      PassedIffClean(user, checker, k);
    }
  }

  /** The verdict of any outcome, from the reports alone. */
  lemma OutcomeMeans(results: seq<Result>, checkerCompiles: bool, userCompile: UserCompile, n: nat,
                     user: nat -> Run, checker: nat -> Run)
    requires Outcome(results, checkerCompiles, userCompile, n, user, checker)
    ensures VerdictMeans(results[|results| - 1].status, |results|, checkerCompiles, userCompile, n, user, checker)
  {
    if checkerCompiles && userCompile.NoBinary? {
      CompileStatus(userCompile.report);
    } else if checkerCompiles && n > 0 {
      JudgedMeans(results, n, user, checker);
    }
  }

  class Worker {
    var submissionId: string
    var verdict: Option<Verdict>
    /** Status updates sent so far. */
    var sent: seq<StatusMessage>
    /** Results of rated submissions sent to the leaderboard so far. */
    var reported: seq<Report>

    constructor ()
      ensures sent == [] && reported == [] && verdict == None
    {
      submissionId, verdict, sent, reported := "", None, [], [];
    }

    /** Sends one update. */
    method PublishStatusUpdate(status: string)
      modifies this`sent
      ensures sent == old(sent) + [Update(submissionId, verdict, status)]
      ensures var msg := sent[|old(sent)|];
              && msg.submissionId == submissionId && msg.status == status
              && (!msg.running <==> verdict.Some? && StatusText(verdict.value.status) == status)
              && (verdict.Some? ==> msg.time == verdict.value.time && msg.memory == verdict.value.memory)
              && (verdict.None? ==> msg.time == 0 && msg.memory == 0)
    {
      var msg := StatusMessage(submissionId, true, status, 0, 0);
      if verdict.Some? {
        msg := msg.(time := verdict.value.time, memory := verdict.value.memory);
        if StatusText(verdict.value.status) == status {
          msg := msg.(running := false);
        }
      }
      sent := sent + [msg];
    }

    /** One round of the loop over the tests: announces the test, runs the user's program, and then the
        checker if the program ended well. */
    method RunTest(test: nat, user: nat -> Run, checker: nat -> Run) returns (result: Result)
      requires verdict.None?
      modifies this`sent
      ensures sent == old(sent) + [Update(submissionId, None, RunningOnTest(test))]
      ensures result == TestResult(user, StatusOf(checker), test)
    {
      PublishStatusUpdate(RunningOnTest(test));
      var userCodeResult := ExecuteUserCode(user(test));
      if userCodeResult.status != AC {
        return userCodeResult.(test := test);
      }
      var checkerResult := ExecuteChecker(checker(test));
      if checkerResult.status != AC && checkerResult.status != WA {
        return checkerResult.(test := test, time := 0.0, memory := 0);
      }
      result := Result(test, userCodeResult.time, userCodeResult.memory, checkerResult.status);
    }

    /** The loop over the tests.  Test k+1 is announced and run only when test k passed. */
    method RunTests(n: nat, user: nat -> Run, checker: nat -> Run) returns (results: seq<Result>)
      requires verdict.None? && n > 0
      modifies this`sent
      ensures Judged(results, n, user, checker)
      ensures sent == old(sent) + RunningUpdates(submissionId, ProgressTexts(|results|))
    {
      results := [];
      for test := 1 to n + 1
        invariant |results| == test - 1
        invariant forall i :: 0 <= i < |results| ==> results[i] == TestResult(user, StatusOf(checker), i + 1)
        invariant forall k :: 1 <= k < test ==> Passed(user, checker, k)
        invariant sent == old(sent) + RunningUpdates(submissionId, ProgressTexts(|results|))
      {
        ProgressStep(submissionId, test);
        PassedIffAc(user, checker, test);
        var result := RunTest(test, user, checker);
        results := results + [result];
        if result.status != AC {
          return;
        }
      }
    }

    /** Compiles checker and user code, and then runs the tests. */
    method ExecuteWorker(checkerCompiles: bool, userCompile: UserCompile, n: nat, user: nat -> Run, checker: nat -> Run)
      returns (results: seq<Result>)
      requires verdict.None?
      modifies this`sent
      ensures Outcome(results, checkerCompiles, userCompile, n, user, checker)
      ensures sent == old(sent) + RunningUpdates(submissionId, JudgingTexts(TestsRun(results)))
    {
      PublishStatusUpdate("Compiling");
      RunningUpdatesAppend(submissionId, ["Compiling"], ProgressTexts(0));
      if !checkerCompiles {
        return [FormatResult(None, INT)];
      }
      if userCompile.NoBinary? {
        return [CompileFailure(userCompile.report)];
      }
      if n == 0 {
        return [Result(0, 0.0, 0, INT)];
      }
      results := RunTests(n, user, checker);
      RunningUpdatesAppend(submissionId, ["Compiling"], ProgressTexts(|results|));
    }

    /** Stores the verdict with the status of the last result and the largest costs.  Once it is saved,
        a rated one is reported to the leaderboard, and it is announced. */
    method PostExecute(results: seq<Result>, rated: bool, saved: bool) returns (ok: bool)
      requires results != []
      modifies this`verdict, this`sent, this`reported
      ensures ok == saved
      ensures verdict.Some? && verdict.value.results == results
      ensures verdict.value.status == results[|results| - 1].status
      ensures IsMaxCost(results, verdict.value.time, verdict.value.memory)
      ensures reported == old(reported) + if rated && saved then [Report(submissionId, verdict.value.status)] else []
      ensures !saved ==> sent == old(sent)
      ensures saved ==> sent == old(sent) + [Update(submissionId, verdict, StatusText(verdict.value.status))]
    {
      var status := results[|results| - 1].status;
      var maxTime, maxMemory := 0, 0;
      for i := 0 to |results|
        invariant IsMaxCost(results[..i], maxTime, maxMemory)
        invariant sent == old(sent) && reported == old(reported)
      {
        ghost var t, m := maxTime, maxMemory;
        if Millis(results[i]) > maxTime {
          maxTime := Millis(results[i]);
        }
        if results[i].memory > maxMemory {
          maxMemory := results[i].memory;
        }
        MaxCostAppend(results[..i], results[i], t, m);
        assert results[..i + 1] == results[..i] + [results[i]];
      }
      assert results[..|results|] == results;
      verdict := Some(Verdict(status, maxTime, maxMemory, results));
      ok := saved;
      if ok {
        if rated {
          reported := reported + [Report(submissionId, status)];
        }
        PublishStatusUpdate(StatusText(status));
      }
    }

    /** One job, up to its settling.  It has a verdict unless it failed before judging, and the results
        are reported and the verdict announced only when it was saved. */
    method RunWorker(id: string, rated: bool, dirMade: bool, problemLoaded: bool, saved: bool,
                     checkerCompiles: bool, userCompile: UserCompile, n: nat, user: nat -> Run, checker: nat -> Run)
      returns (ok: bool)
      modifies this
      ensures ok == (dirMade && problemLoaded && saved)
      ensures verdict.None? <==> !(dirMade && problemLoaded)
      ensures verdict.Some? ==>
                && Outcome(verdict.value.results, checkerCompiles, userCompile, n, user, checker)
                && verdict.value.status == verdict.value.results[|verdict.value.results| - 1].status
                && IsMaxCost(verdict.value.results, verdict.value.time, verdict.value.memory)
      ensures verdict.Some? ==>
                VerdictMeans(verdict.value.status, |verdict.value.results|, checkerCompiles, userCompile, n, user, checker)
      ensures reported == old(reported) + if rated && ok then [Report(id, verdict.value.status)] else []
      ensures sent == old(sent) + JobTrace(id, if verdict.Some? then Some(TestsRun(verdict.value.results)) else None,
                                           if ok then verdict else None)
    {
      submissionId, verdict := id, None;
      PublishStatusUpdate("Running");
      if !dirMade || !problemLoaded {
        JobTraceEarly(id);
        return false;
      }
      var results := ExecuteWorker(checkerCompiles, userCompile, n, user, checker);
      OutcomeMeans(results, checkerCompiles, userCompile, n, user, checker);
      JobTraceSteps(old(sent), id, TestsRun(results));
      ok := PostExecute(results, rated, saved);
    }
  }

  /** A job's updates: what was announced on the way, and then its verdict if that was saved. */
  function JobTrace(id: string, testsRun: Option<nat>, saved: Option<Verdict>): seq<StatusMessage> {
    RunningUpdates(id, ["Running"] + if testsRun.Some? then JudgingTexts(testsRun.value) else []) +
    if saved.Some? then [Update(id, saved, StatusText(saved.value.status))] else []
  }

  lemma JobTraceEarly(id: string)
    ensures JobTrace(id, None, None) == [Update(id, None, "Running")]
  {
  }

  lemma JobTraceSteps(before: seq<StatusMessage>, id: string, testsRun: nat)
    ensures before + [Update(id, None, "Running")] + RunningUpdates(id, JudgingTexts(testsRun)) ==
            before + JobTrace(id, Some(testsRun), None)
    ensures forall verdict: Verdict ::
              before + JobTrace(id, Some(testsRun), None) + [Update(id, Some(verdict), StatusText(verdict.status))] ==
              before + JobTrace(id, Some(testsRun), Some(verdict))
  {
    RunningUpdatesAppend(id, ["Running"], JudgingTexts(testsRun));
    assert RunningUpdates(id, ["Running"]) == [Update(id, None, "Running")];
  }

  /** A completed job sends exactly one update that is not running, its last; a job that fails on the
      way sends only running ones. */
  lemma JobTraceShape(id: string, testsRun: Option<nat>, saved: Option<Verdict>)
    ensures JobTrace(id, testsRun, saved) != []
    ensures CompletedTrace(JobTrace(id, testsRun, saved), id) <==> saved.Some?
    ensures AllRunning(JobTrace(id, testsRun, saved), id) <==> saved.None?
  {
    var running := RunningUpdates(id, ["Running"] + if testsRun.Some? then JudgingTexts(testsRun.value) else []);
    assert JobTrace(id, testsRun, saved)[..|running|] == running;
    if saved.Some? {
      assert !JobTrace(id, testsRun, saved)[|running|].running;
    }
  }

  /** What a job announces, update by update. */
  lemma JobTraceTexts(id: string, testsRun: nat, saved: Option<Verdict>)
    ensures var trace := JobTrace(id, Some(testsRun), saved);
            && |trace| == 2 + testsRun + (if saved.Some? then 1 else 0)
            && trace[0].status == "Running" && trace[1].status == "Compiling"
            && (forall k :: 1 <= k <= testsRun ==> trace[1 + k].status == "Running on test " + Itoa(k))
            && (saved.Some? ==> trace[2 + testsRun].status == StatusText(saved.value.status)
                                && trace[2 + testsRun].time == saved.value.time && trace[2 + testsRun].memory == saved.value.memory)
  {
    var texts := ["Running"] + JudgingTexts(testsRun);
    forall k | 1 <= k <= testsRun ensures texts[1 + k] == "Running on test " + Itoa(k) {
      assert JudgingTexts(testsRun)[k] == ProgressTexts(testsRun)[k - 1];
    }
  }

  lemma ProgressStep(id: string, test: nat)
    requires test >= 1
    ensures RunningUpdates(id, ProgressTexts(test)) ==
            RunningUpdates(id, ProgressTexts(test - 1)) + [Update(id, None, RunningOnTest(test))]
  {
    assert ProgressTexts(test) == ProgressTexts(test - 1) + [RunningOnTest(test)];
    RunningUpdatesAppend(id, ProgressTexts(test - 1), [RunningOnTest(test)]);
  }

  lemma MaxCostAppend(rs: seq<Result>, r: Result, time: int, memory: int)
    requires IsMaxCost(rs, time, memory)
    ensures IsMaxCost(rs + [r], if Millis(r) > time then Millis(r) else time, if r.memory > memory then r.memory else memory)
  {
    var all := rs + [r];
    assert all[|rs|] == r;
    assert forall i :: 0 <= i < |rs| ==> all[i] == rs[i];
  }
}
