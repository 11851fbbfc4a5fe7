/** Submissions from the broker to the workers: execution-engine/engine/rabbitmq.go,
    execution-engine/engine/engine.go, the receive loop of execution-engine/worker/worker.go, and what
    the lock of a checker does to them (execution-engine/worker/compile.go).

    With W workers the broker keeps at most W deliveries unacked and the job channel holds at most W
    jobs.  A worker fetches its problem and so gets hold of an artefact item; a failed compile of the
    item's checker settles the job but leaves the item locked, and whoever gets hold of that item waits
    for good.  A crash of the process gives every unacked delivery back to the broker; an early failure
    nacks its job and then panics.  Shutdown is not a step. */
module JobDelivery {
  import opened Options
  import opened Paths

  type Job = nat

  /** An artefact item in memory.  A download after an eviction makes another one. */
  type Item = nat

  datatype Pc = Idle | Fetching(job: Job) | Holding(job: Job, item: Item) | Judging(job: Job)

  datatype State = State(
    published: multiset<Job>,
    queued: multiset<Job>,
    dispatched: multiset<Job>,
    inHand: multiset<Job>,
    channel: seq<Job>,
    workers: seq<Pc>,
    broken: set<Item>,
    acked: multiset<Job>,
    nacked: multiset<Job>)

  datatype Action =
    | Publish(d: Job)
    | Dispatch(d: Job)
    | Take(d: Job)
    | RejectUndecodable(d: Job)
    | Send(d: Job)
    | Receive(w: nat)
    | Fetch(w: nat, item: Item)
    | GetChecker(w: nat)
    | CompileFails(w: nat, saved: bool)
    | Finish(w: nat, saved: bool)
    | FailEarly(w: nat)
    | Crash

  function HeldBy(pc: Pc): multiset<Job> {
    if pc.Idle? then multiset{} else multiset{pc.job}
  }

  function Running(workers: seq<Pc>): multiset<Job> {
    if workers == [] then multiset{} else Running(workers[1..]) + HeldBy(workers[0])
  }

  /** Deliveries the broker waits on. */
  function Unacked(s: State): multiset<Job> {
    s.dispatched + s.inHand + multiset(s.channel) + Running(s.workers)
  }

  predicate Enabled(s: State, a: Action) {
    match a
    case Publish(d) => d !in s.published
    case Dispatch(d) => d in s.queued && |Unacked(s)| < |s.workers|
    case Take(d) => d in s.dispatched && s.inHand == multiset{}
    case RejectUndecodable(d) => d in s.inHand
    case Send(d) => d in s.inHand && |s.channel| < |s.workers|
    case Receive(w) => w < |s.workers| && s.workers[w].Idle? && s.channel != []
    case Fetch(w, _) => w < |s.workers| && s.workers[w].Fetching?
    case GetChecker(w) => w < |s.workers| && s.workers[w].Holding? && s.workers[w].item !in s.broken
    case CompileFails(w, _) => w < |s.workers| && s.workers[w].Holding? && s.workers[w].item !in s.broken
    case Finish(w, _) => w < |s.workers| && s.workers[w].Judging?
    case FailEarly(w) => w < |s.workers| && s.workers[w].Fetching?
    case Crash => true
  }

  /** A worker settles its job: acked if the verdict was saved, nacked without requeue if not. */
  function Settle(s: State, w: nat, ack: bool): State
    requires w < |s.workers| && !s.workers[w].Idle?
  {
    var d := multiset{s.workers[w].job};
    var t := s.(workers := s.workers[w := Idle]);
    if ack then t.(acked := s.acked + d) else t.(nacked := s.nacked + d)
  }

  function Restarted(s: State): State {
    s.(queued := s.queued + Unacked(s), dispatched := multiset{}, inHand := multiset{}, channel := [],
       workers := seq(|s.workers|, i => Idle), broken := {})
  }

  function Do(s: State, a: Action): State
    requires Enabled(s, a)
  {
    match a
    case Publish(d) => s.(published := s.published + multiset{d}, queued := s.queued + multiset{d})
    case Dispatch(d) => s.(queued := s.queued - multiset{d}, dispatched := s.dispatched + multiset{d})
    case Take(d) => s.(dispatched := s.dispatched - multiset{d}, inHand := s.inHand + multiset{d})
    case RejectUndecodable(d) => s.(inHand := s.inHand - multiset{d}, nacked := s.nacked + multiset{d})
    case Send(d) => s.(inHand := s.inHand - multiset{d}, channel := s.channel + [d])
    case Receive(w) => s.(channel := s.channel[1..], workers := s.workers[w := Fetching(s.channel[0])])
    case Fetch(w, item) => s.(workers := s.workers[w := Holding(s.workers[w].job, item)])
    case GetChecker(w) => s.(workers := s.workers[w := Judging(s.workers[w].job)])
    case CompileFails(w, saved) => Settle(s, w, saved).(broken := s.broken + {s.workers[w].item})
    case Finish(w, saved) => Settle(s, w, saved)
    case FailEarly(w) => Restarted(Settle(s, w, false))
    case Crash => Restarted(s)
  }

  ghost function After(s: State, a: Action): Option<State> {
    if Enabled(s, a) then Some(Do(s, a)) else None
  }

  ghost predicate Next(s: State, t: State) {
    exists a :: Enabled(s, a) && t == Do(s, a)
  }

  function Initial(workers: nat): State {
    State(multiset{}, multiset{}, multiset{}, multiset{}, [], seq(workers, i => Idle), {}, multiset{}, multiset{})
  }

  ghost predicate IsRun(ss: seq<State>, workers: nat) {
    && ss != []
    && ss[0] == Initial(workers)
    && forall i :: 0 <= i < |ss| - 1 ==> Next(ss[i], ss[i + 1])
  }

  // ---------------------------------------------------------------- invariant

  /** How often a job occurs in all places together. */
  function Total(s: State, d: Job): nat {
    s.queued[d] + s.dispatched[d] + s.inHand[d] + multiset(s.channel)[d] + Running(s.workers)[d] + s.acked[d] + s.nacked[d]
  }

  /** How many deliveries the broker waits on. */
  function Load(s: State): nat {
    |s.dispatched| + |s.inHand| + |s.channel| + |Running(s.workers)|
  }

  ghost predicate Inv(s: State) {
    && (forall d :: Total(s, d) == s.published[d] <= 1)
    && Load(s) <= |s.workers|
    && |s.inHand| <= 1
  }

  lemma {:induction false} RunningSet(workers: seq<Pc>, w: nat, pc: Pc, d: Job)
    requires w < |workers|
    ensures Running(workers[w := pc])[d] + HeldBy(workers[w])[d] == Running(workers)[d] + HeldBy(pc)[d]
    ensures |Running(workers[w := pc])| + |HeldBy(workers[w])| == |Running(workers)| + |HeldBy(pc)|
  {
    var changed := workers[w := pc];
    if w > 0 {
      RunningSet(workers[1..], w - 1, pc, d);
      assert changed[1..] == workers[1..][w - 1 := pc];
    } else {
      assert changed[1..] == workers[1..];
    }
  }

  lemma {:induction false} NoneRunning(workers: seq<Pc>)
    requires forall w :: 0 <= w < |workers| ==> workers[w].Idle?
    ensures Running(workers) == multiset{}
  {
    if workers != [] {
      NoneRunning(workers[1..]);
    }
  }

  lemma {:induction false} AllRunning(workers: seq<Pc>)
    ensures |Running(workers)| <= |workers|
    ensures (forall w :: 0 <= w < |workers| ==> !workers[w].Idle?) ==> |Running(workers)| == |workers|
  {
    if workers != [] {
      AllRunning(workers[1..]);
    }
  }

  lemma {:induction false} SomeIdle(workers: seq<Pc>, w: nat)
    requires w < |workers| && workers[w].Idle?
    ensures |Running(workers)| < |workers|
  {
    if w > 0 {
      SomeIdle(workers[1..], w - 1);
    } else {
      AllRunning(workers[1..]);
    }
  }

  lemma SettleTotal(s: State, w: nat, ack: bool, d: Job)
    requires w < |s.workers| && !s.workers[w].Idle?
    ensures Total(Settle(s, w, ack), d) == Total(s, d)
    ensures Load(Settle(s, w, ack)) < Load(s)
  {
    RunningSet(s.workers, w, Idle, d);
  }

  lemma RestartTotal(s: State, d: Job)
    ensures Total(Restarted(s), d) == Total(s, d)
    ensures Load(Restarted(s)) == 0
  {
    NoneRunning(Restarted(s).workers);
  }

  lemma HandingTotal(s: State, a: Action, d: Job)
    requires Enabled(s, a) && (a.Publish? || a.Dispatch? || a.Take? || a.RejectUndecodable?)
    ensures Total(Do(s, a), d) == Total(s, d) + if a == Publish(d) then 1 else 0
    ensures Load(Do(s, a)) <= if a.Dispatch? then |s.workers| else Load(s)
  {
  }

  lemma SendTotal(s: State, j: Job, d: Job)
    requires Enabled(s, Send(j))
    ensures Total(Do(s, Send(j)), d) == Total(s, d)
    ensures Load(Do(s, Send(j))) == Load(s)
  {
    assert multiset(s.channel + [j]) == multiset(s.channel) + multiset{j};
  }

  lemma ReceiveTotal(s: State, w: nat, d: Job)
    requires Enabled(s, Receive(w))
    ensures Total(Do(s, Receive(w)), d) == Total(s, d)
    ensures Load(Do(s, Receive(w))) == Load(s)
  {
    RunningSet(s.workers, w, Fetching(s.channel[0]), d);
    HeadLeaves(s.channel, d);
  }

  lemma HeadLeaves(channel: seq<Job>, d: Job)
    requires channel != []
    ensures multiset(channel)[d] == multiset{channel[0]}[d] + multiset(channel[1..])[d]
  {
    assert channel == [channel[0]] + channel[1..];
    assert multiset(channel) == multiset{channel[0]} + multiset(channel[1..]);
  }

  /** A worker goes on with its job. */
  lemma MovesOn(s: State, w: nat, pc: Pc, d: Job)
    requires w < |s.workers| && HeldBy(pc) == HeldBy(s.workers[w])
    ensures var t := s.(workers := s.workers[w := pc]); Total(t, d) == Total(s, d) && Load(t) == Load(s)
  {
    RunningSet(s.workers, w, pc, d);
  }

  /** No step loses or duplicates a job, and only a dispatch adds to the load, up to the limit. */
  lemma StepTotal(s: State, a: Action, d: Job)
    requires Enabled(s, a)
    ensures Total(Do(s, a), d) == Total(s, d) + if a == Publish(d) then 1 else 0
    ensures Load(Do(s, a)) <= if a.Dispatch? then |s.workers| else Load(s)
  {
    match a
    case Publish(_) => HandingTotal(s, a, d);
    case Dispatch(_) => HandingTotal(s, a, d);
    case Take(_) => HandingTotal(s, a, d);
    case RejectUndecodable(_) => HandingTotal(s, a, d);
    case Send(j) => SendTotal(s, j, d);
    case Receive(w) => ReceiveTotal(s, w, d);
    case Fetch(w, item) => MovesOn(s, w, Holding(s.workers[w].job, item), d);
    case GetChecker(w) => MovesOn(s, w, Judging(s.workers[w].job), d);
    case CompileFails(w, saved) => SettleTotal(s, w, saved, d);
    case Finish(w, saved) => SettleTotal(s, w, saved, d);
    case FailEarly(w) =>
      SettleTotal(s, w, false, d);
      RestartTotal(Settle(s, w, false), d);
    case Crash => RestartTotal(s, d);
  }

  lemma StepPublishes(s: State, a: Action, d: Job)
    requires Enabled(s, a)
    ensures Do(s, a).published[d] == s.published[d] + if a == Publish(d) then 1 else 0
    ensures a == Publish(d) ==> s.published[d] == 0
    ensures |Do(s, a).workers| == |s.workers|
    ensures |s.inHand| <= 1 ==> |Do(s, a).inHand| <= 1
  {
    if IsWorkerStep(a) || a.Crash? {
      WorkersAlone(s, a);
    } else {
      HandingAlone(s, a);
    }
  }

  predicate IsWorkerStep(a: Action) {
    a.Receive? || a.Fetch? || a.GetChecker? || a.CompileFails? || a.Finish? || a.FailEarly?
  }

  /** The workers publish nothing and leave the consumer's hand alone, unless the process goes down. */
  lemma WorkersAlone(s: State, a: Action)
    requires Enabled(s, a) && (IsWorkerStep(a) || a.Crash?)
    ensures Do(s, a).published == s.published && |Do(s, a).workers| == |s.workers|
    ensures Do(s, a).inHand == (if a.Crash? || a.FailEarly? then multiset{} else s.inHand)
  {
    if a.CompileFails? || a.Finish? {
      SettlingAlone(s, a);
    } else if a.Crash? || a.FailEarly? {
      RestartAlone(s, a);
    }
  }

  lemma SettlingAlone(s: State, a: Action)
    requires Enabled(s, a) && (a.CompileFails? || a.Finish?)
    ensures Do(s, a).published == s.published && |Do(s, a).workers| == |s.workers| && Do(s, a).inHand == s.inHand
  {
  }

  lemma RestartAlone(s: State, a: Action)
    requires Enabled(s, a) && (a.Crash? || a.FailEarly?)
    ensures Do(s, a).published == s.published && |Do(s, a).workers| == |s.workers| && Do(s, a).inHand == multiset{}
  {
  }

  lemma HandingAlone(s: State, a: Action)
    requires Enabled(s, a) && !IsWorkerStep(a) && !a.Crash?
    ensures Do(s, a).workers == s.workers && Do(s, a).acked == s.acked
    ensures Do(s, a).nacked == (if a.RejectUndecodable? then s.nacked + multiset{a.d} else s.nacked)
    ensures Do(s, a).published == (if a.Publish? then s.published + multiset{a.d} else s.published)
    ensures |Do(s, a).inHand| <= if a.Take? then 1 else |s.inHand|
  {
  }

  lemma StepKeepsInv(s: State, a: Action)
    requires Inv(s) && Enabled(s, a)
    ensures Inv(Do(s, a))
  {
    var t := Do(s, a);
    forall d ensures Total(t, d) == t.published[d] <= 1 {
      StepTotal(s, a, d);
      StepPublishes(s, a, d);
    }
    StepTotal(s, a, 0);
    StepPublishes(s, a, 0);
  }

  /** No step takes a settlement back or changes the number of workers. */
  lemma StepSettles(s: State, a: Action)
    requires Enabled(s, a)
    ensures s.acked <= Do(s, a).acked && s.nacked <= Do(s, a).nacked
    ensures |Do(s, a).workers| == |s.workers|
  {
    if IsWorkerStep(a) || a.Crash? {
      WorkersAlone(s, a);
      WorkersSettle(s, a);
    } else {
      HandingAlone(s, a);
    }
  }

  lemma WorkersSettle(s: State, a: Action)
    requires Enabled(s, a) && (IsWorkerStep(a) || a.Crash?)
    ensures s.acked <= Do(s, a).acked && s.nacked <= Do(s, a).nacked
  {
    if a.CompileFails? || a.Finish? {
      SettleSettles(s, a.w, a.saved);
    } else if a.FailEarly? {
      SettleSettles(s, a.w, false);
    }
  }

  lemma SettleSettles(s: State, w: nat, ack: bool)
    requires w < |s.workers| && !s.workers[w].Idle?
    ensures s.acked <= Settle(s, w, ack).acked && s.nacked <= Settle(s, w, ack).nacked
  {
  }

  lemma {:induction false} RunKeepsInv(ss: seq<State>, workers: nat, i: nat)
    requires IsRun(ss, workers) && i < |ss|
    ensures Inv(ss[i]) && |ss[i].workers| == workers
  {
    if i > 0 {
      RunKeepsInv(ss, workers, i - 1);
      assert Next(ss[i - 1], ss[i - 1 + 1]);
      var a :| Enabled(ss[i - 1], a) && ss[i] == Do(ss[i - 1], a);
      StepKeepsInv(ss[i - 1], a);
      StepSettles(ss[i - 1], a);
    } else {
      NoneRunning(ss[0].workers);
    }
  }

  lemma {:induction false} SettledForGood(ss: seq<State>, workers: nat, i: nat, j: nat)
    requires IsRun(ss, workers) && i <= j < |ss|
    ensures ss[i].acked <= ss[j].acked && ss[i].nacked <= ss[j].nacked
  {
    if i < j {
      SettledForGood(ss, workers, i, j - 1);
      RunKeepsInv(ss, workers, j - 1);
      assert Next(ss[j - 1], ss[j - 1 + 1]);
      var a :| Enabled(ss[j - 1], a) && ss[j] == Do(ss[j - 1], a);
      StepSettles(ss[j - 1], a);
    }
  }

  /** Every published job is in exactly one place in every reachable state, and a settled one is settled
      once and for all. */
  lemma ExactlyOnePlace(ss: seq<State>, workers: nat, i: nat, j: nat, d: Job)
    requires IsRun(ss, workers) && i <= j < |ss| && d in ss[i].published
    ensures Total(ss[i], d) == 1
    ensures ss[i].acked[d] + ss[i].nacked[d] == 1 ==>
              ss[j].acked[d] == ss[i].acked[d] && ss[j].nacked[d] == ss[i].nacked[d]
  {
    RunKeepsInv(ss, workers, i);
    RunKeepsInv(ss, workers, j);
    SettledForGood(ss, workers, i, j);
    assert Total(ss[i], d) == ss[i].published[d] && Total(ss[j], d) == ss[j].published[d];
  }

  // ---------------------------------------------------------------- how jobs are settled

  predicate Runs(s: State, w: nat, d: Job) {
    w < |s.workers| && !s.workers[w].Idle? && s.workers[w].job == d
  }

  /** The step settles the job with its verdict saved. */
  predicate SettlesSaved(s: State, a: Action, d: Job) {
    ((a.Finish? && a.saved) || (a.CompileFails? && a.saved)) && Runs(s, a.w, d)
  }

  /** The step gives the job up: undecodable, failed early, or its verdict was not saved. */
  predicate GivesUp(s: State, a: Action, d: Job) {
    || a == RejectUndecodable(d)
    || (((a.Finish? && !a.saved) || (a.CompileFails? && !a.saved) || a.FailEarly?) && Runs(s, a.w, d))
  }

  lemma StepSettlesAs(s: State, a: Action, d: Job)
    requires Enabled(s, a)
    ensures Do(s, a).acked[d] == s.acked[d] + if SettlesSaved(s, a, d) then 1 else 0
    ensures Do(s, a).nacked[d] == s.nacked[d] + if GivesUp(s, a, d) then 1 else 0
  {
    if a.Finish? || a.CompileFails? {
      SettledAs(s, a.w, a.saved, d);
    } else if a.FailEarly? {
      SettledAs(s, a.w, false, d);
    } else if IsWorkerStep(a) || a.Crash? {
      OthersSettleNothing(s, a);
    } else {
      HandingAlone(s, a);
    }
  }

  lemma SettledAs(s: State, w: nat, ack: bool, d: Job)
    requires w < |s.workers| && !s.workers[w].Idle?
    ensures Settle(s, w, ack).acked[d] == s.acked[d] + if ack && Runs(s, w, d) then 1 else 0
    ensures Settle(s, w, ack).nacked[d] == s.nacked[d] + if !ack && Runs(s, w, d) then 1 else 0
  {
  }

  lemma OthersSettleNothing(s: State, a: Action)
    requires Enabled(s, a) && (a.Receive? || a.Fetch? || a.GetChecker? || a.Crash?)
    ensures Do(s, a).acked == s.acked && Do(s, a).nacked == s.nacked
  {
  }

  /** This step of the run settles the job with its verdict saved, or gives it up. */
  ghost predicate SavedAt(s: State, t: State, d: Job) {
    exists a :: Enabled(s, a) && t == Do(s, a) && SettlesSaved(s, a, d)
  }

  ghost predicate GivenUpAt(s: State, t: State, d: Job) {
    exists a :: Enabled(s, a) && t == Do(s, a) && GivesUp(s, a, d)
  }

  ghost predicate SavedBefore(ss: seq<State>, i: nat, d: Job)
    requires i < |ss|
  {
    exists j :: 0 <= j < i && SavedAt(ss[j], ss[j + 1], d)
  }

  ghost predicate GivenUpBefore(ss: seq<State>, i: nat, d: Job)
    requires i < |ss|
  {
    exists j :: 0 <= j < i && GivenUpAt(ss[j], ss[j + 1], d)
  }

  lemma RunStepSettles(ss: seq<State>, workers: nat, i: nat, d: Job)
    requires IsRun(ss, workers) && 0 < i < |ss|
    ensures d in ss[i].acked <==> d in ss[i - 1].acked || SavedAt(ss[i - 1], ss[i], d)
    ensures d in ss[i].nacked <==> d in ss[i - 1].nacked || GivenUpAt(ss[i - 1], ss[i], d)
  {
    var s, t := ss[i - 1], ss[i - 1 + 1];
    assert Next(s, t);
    var a :| Enabled(s, a) && t == Do(s, a);
    StepSettlesAs(s, a, d);
    if SavedAt(s, t, d) {
      var b :| Enabled(s, b) && t == Do(s, b) && SettlesSaved(s, b, d);
      StepSettlesAs(s, b, d);
    }
    if GivenUpAt(s, t, d) {
      var b :| Enabled(s, b) && t == Do(s, b) && GivesUp(s, b, d);
      StepSettlesAs(s, b, d);
    }
  }

  /** A job is acked exactly if its verdict was saved, and nacked exactly if it was given up. */
  lemma {:induction false} SettledAsItWent(ss: seq<State>, workers: nat, i: nat, d: Job)
    requires IsRun(ss, workers) && i < |ss|
    ensures d in ss[i].acked <==> SavedBefore(ss, i, d)
    ensures d in ss[i].nacked <==> GivenUpBefore(ss, i, d)
  {
    if i > 0 {
      SettledAsItWent(ss, workers, i - 1, d);
      OneMoreStep(ss, workers, i, d);
    }
  }

  lemma OneMoreStep(ss: seq<State>, workers: nat, i: nat, d: Job)
    requires IsRun(ss, workers) && 0 < i < |ss|
    requires d in ss[i - 1].acked <==> SavedBefore(ss, i - 1, d)
    requires d in ss[i - 1].nacked <==> GivenUpBefore(ss, i - 1, d)
    ensures d in ss[i].acked <==> SavedBefore(ss, i, d)
    ensures d in ss[i].nacked <==> GivenUpBefore(ss, i, d)
  {
    RunStepSettles(ss, workers, i, d);
    BeforeStep(ss, i, d);
  }

  lemma BeforeStep(ss: seq<State>, i: nat, d: Job)
    requires 0 < i < |ss|
    ensures SavedBefore(ss, i, d) <==> SavedBefore(ss, i - 1, d) || SavedAt(ss[i - 1], ss[i], d)
    ensures GivenUpBefore(ss, i, d) <==> GivenUpBefore(ss, i - 1, d) || GivenUpAt(ss[i - 1], ss[i], d)
  {
    assert ss[i - 1 + 1] == ss[i];
  }

  /** The consumer's send never blocks, and a job in the channel always has an idle worker to take it. */
  lemma HandOffNeverBlocks(ss: seq<State>, workers: nat, i: nat)
    requires IsRun(ss, workers) && i < |ss|
    ensures forall d :: d in ss[i].inHand ==> Enabled(ss[i], Send(d))
    ensures ss[i].channel != [] ==> exists w :: Enabled(ss[i], Receive(w))
  {
    RunKeepsInv(ss, workers, i);
    RoomForAll(ss[i]);
  }

  lemma RoomForAll(s: State)
    requires Inv(s)
    ensures forall d :: d in s.inHand ==> Enabled(s, Send(d))
    ensures s.channel != [] ==> exists w :: Enabled(s, Receive(w))
  {
    if s.channel != [] && !exists w :: Enabled(s, Receive(w)) {
      forall w | 0 <= w < |s.workers| ensures !s.workers[w].Idle? {
        assert !Enabled(s, Receive(w));
      }
      AllRunning(s.workers);
    }
  }

  // ---------------------------------------------------------------- the consume loop

  /** A delivery and whether its body decodes. */
  datatype Delivery = Delivery(job: Job, decodes: bool)

  function Jobs(ds: seq<Delivery>): multiset<Job> {
    if ds == [] then multiset{} else multiset{ds[0].job} + Jobs(ds[1..])
  }

  /** The consumer's steps for deliveries in order: take each, and send it or reject it. */
  function ConsumeSteps(ds: seq<Delivery>): seq<Action> {
    if ds == [] then []
    else
      var d := ds[|ds| - 1];
      ConsumeSteps(ds[..|ds| - 1]) + [Take(d.job), Passing(d)]
  }

  /** One delivery taken and passed on or rejected: with the broker's limit kept, there is room for it. */
  lemma OneDelivery(s: State, d: Delivery)
    requires Inv(s) && s.inHand == multiset{} && d.job in s.dispatched
    ensures var a := Passing(d);
            var taken := Do(s, Take(d.job));
            && Enabled(taken, a)
            && var t := Do(taken, a);
               && Inv(t) && t.inHand == multiset{} && t.dispatched == s.dispatched - multiset{d.job}
               && t.channel == (if d.decodes then s.channel + [d.job] else s.channel)
               && t.nacked == (if d.decodes then s.nacked else s.nacked + multiset{d.job})
               && t.queued == s.queued && t.workers == s.workers && t.broken == s.broken && t.acked == s.acked && t.published == s.published
  {
    StepKeepsInv(s, Take(d.job));
    StepKeepsInv(Do(s, Take(d.job)), Passing(d));
  }

  /** Between `s` and `t` the consumer passed `sent` on and rejected `rejected`; `left` is yet to come. */
  ghost predicate Between(s: State, t: State, left: multiset<Job>, sent: seq<Job>, rejected: seq<Job>) {
    && t.inHand == multiset{} && left <= t.dispatched
    && t.dispatched + multiset(sent) + multiset(rejected) == s.dispatched
    && t.channel == s.channel + sent && t.nacked == s.nacked + multiset(rejected)
    && t.queued == s.queued && t.workers == s.workers && t.broken == s.broken && t.acked == s.acked && t.published == s.published
  }

  function Passing(d: Delivery): Action {
    if d.decodes then Send(d.job) else RejectUndecodable(d.job)
  }

  lemma OneMoreDelivery(s: State, t: State, ds: seq<Delivery>, i: nat, sent: seq<Job>, rejected: seq<Job>) returns (u: State)
    requires i < |ds| && Consumed(s, t, ds, i, sent, rejected)
    ensures Consumed(s, u, ds, i + 1, if ds[i].decodes then sent + [ds[i].job] else sent,
                     if ds[i].decodes then rejected else rejected + [ds[i].job])
  {
    var d := ds[i];
    TakenIn(ds, i);
    var left := Jobs(ds[i + 1..]);
    PassedOn(s, t, d, left, sent, rejected);
    u := Do(Do(t, Take(d.job)), Passing(d));
    PathTwoMore(s, ConsumeSteps(ds[..i]), t, Take(d.job), Passing(d));
    StepsOfOneMore(ds, i);
  }

  lemma StepsOfOneMore(ds: seq<Delivery>, i: nat)
    requires i < |ds|
    ensures ConsumeSteps(ds[..i + 1]) == ConsumeSteps(ds[..i]) + [Take(ds[i].job), Passing(ds[i])]
  {
    assert ds[..i + 1][..i] == ds[..i];
  }

  lemma PassedOn(s: State, t: State, d: Delivery, left: multiset<Job>, sent: seq<Job>, rejected: seq<Job>)
    requires Inv(t) && Between(s, t, multiset{d.job} + left, sent, rejected)
    ensures Enabled(t, Take(d.job)) && Enabled(Do(t, Take(d.job)), Passing(d))
    ensures Inv(Do(Do(t, Take(d.job)), Passing(d)))
    ensures Between(s, Do(Do(t, Take(d.job)), Passing(d)), left, if d.decodes then sent + [d.job] else sent,
                    if d.decodes then rejected else rejected + [d.job])
  {
    assert t.dispatched[d.job] >= (multiset{d.job} + left)[d.job] >= 1;
    OneDelivery(t, d);
    Accounts(s, t, Do(Do(t, Take(d.job)), Passing(d)), d, left, sent, rejected);
  }

  lemma Accounts(s: State, t: State, u: State, d: Delivery, left: multiset<Job>, sent: seq<Job>, rejected: seq<Job>)
    requires Between(s, t, multiset{d.job} + left, sent, rejected)
    requires u.inHand == multiset{} && u.dispatched == t.dispatched - multiset{d.job}
    requires u.channel == (if d.decodes then t.channel + [d.job] else t.channel)
    requires u.nacked == (if d.decodes then t.nacked else t.nacked + multiset{d.job})
    requires u.queued == t.queued && u.workers == t.workers && u.broken == t.broken && u.acked == t.acked && u.published == t.published
    ensures Between(s, u, left, if d.decodes then sent + [d.job] else sent, if d.decodes then rejected else rejected + [d.job])
  {
    Balance(t.dispatched, d.job, left, sent, rejected);
  }

  /** Taking a job out of what is dispatched and into either list keeps the total. */
  lemma Balance(dispatched: multiset<Job>, d: Job, left: multiset<Job>, sent: seq<Job>, rejected: seq<Job>)
    requires multiset{d} + left <= dispatched
    ensures left <= dispatched - multiset{d}
    ensures (dispatched - multiset{d}) + multiset(sent + [d]) + multiset(rejected) ==
            dispatched + multiset(sent) + multiset(rejected)
    ensures (dispatched - multiset{d}) + multiset(sent) + multiset(rejected + [d]) ==
            dispatched + multiset(sent) + multiset(rejected)
  {
    var rest := dispatched - multiset{d};
    assert dispatched[d] >= (multiset{d} + left)[d] >= 1;
    assert dispatched == rest + multiset{d};
    assert multiset(sent + [d]) == multiset(sent) + multiset{d};
    assert multiset(rejected + [d]) == multiset(rejected) + multiset{d};
  }

  lemma TakenIn(ds: seq<Delivery>, i: nat)
    requires i < |ds|
    ensures Jobs(ds[i..]) == multiset{ds[i].job} + Jobs(ds[i + 1..])
  {
    assert ds[i..][1..] == ds[i + 1..];
  }

  lemma PathTwoMore(s: State, steps: seq<Action>, t: State, a: Action, b: Action)
    requires Path(After, s, steps, t) && Enabled(t, a) && Enabled(Do(t, a), b)
    ensures Path(After, s, steps + [a, b], Do(Do(t, a), b))
  {
    PathMore(After, s, steps, t, a);
    PathMore(After, s, steps + [a], Do(t, a), b);
    assert steps + [a] + [b] == steps + [a, b];
  }

  /** The first `i` deliveries are done with. */
  ghost predicate Consumed(s: State, t: State, ds: seq<Delivery>, i: nat, sent: seq<Job>, rejected: seq<Job>)
    requires i <= |ds|
  {
    && Inv(t) && Path(After, s, ConsumeSteps(ds[..i]), t)
    && Between(s, t, Jobs(ds[i..]), sent, rejected)
  }

  lemma NothingYet(s: State, ds: seq<Delivery>)
    requires Inv(s) && s.inHand == multiset{} && Jobs(ds) <= s.dispatched
    ensures Consumed(s, s, ds, 0, [], [])
  {
    assert ds[0..] == ds;
  }

  lemma AllConsumed(s: State, t: State, ds: seq<Delivery>, sent: seq<Job>, rejected: seq<Job>)
    requires Consumed(s, t, ds, |ds|, sent, rejected)
    ensures Inv(t) && Path(After, s, ConsumeSteps(ds), t) && Between(s, t, multiset{}, sent, rejected)
  {
    assert ds[..|ds|] == ds;
  }

  /** Hands every decodable delivery on in order and rejects each of the others without requeue.  From
      any reachable state in which the broker has dispatched these deliveries, this is a path of protocol
      steps in which no send has to wait, even if no worker takes a job meanwhile. */
  method Consume(deliveries: seq<Delivery>, ghost s: State)
    returns (jobQueue: seq<Job>, rejected: seq<Job>, ghost t: State)
    requires Inv(s) && s.inHand == multiset{} && Jobs(deliveries) <= s.dispatched
    ensures Inv(t) && Path(After, s, ConsumeSteps(deliveries), t)
    ensures Between(s, t, multiset{}, jobQueue, rejected)
  {
    jobQueue, rejected, t := [], [], s;
    NothingYet(s, deliveries);
    for i := 0 to |deliveries|
      invariant Consumed(s, t, deliveries, i, jobQueue, rejected)
    {
      t := OneMoreDelivery(s, t, deliveries, i, jobQueue, rejected);
      if deliveries[i].decodes {
        jobQueue := jobQueue + [deliveries[i].job];
      } else {
        rejected := rejected + [deliveries[i].job];
      }
    }
    AllConsumed(s, t, deliveries, jobQueue, rejected);
  }
}
