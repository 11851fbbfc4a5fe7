/** When jobs get settled: the protocol of `JobDelivery` goes on as long as some worker is not waiting for
    a locked checker (execution-engine/worker/compile.go:39-45). */
module JobProgress {
  import opened Options
  import opened Paths
  import opened JobDelivery

  /** The worker waits for the lock of an item that was never released. */
  predicate Hung(s: State, w: nat) {
    w < |s.workers| && s.workers[w].Holding? && s.workers[w].item in s.broken
  }

  /** Some job is on its way to the workers. */
  predicate JobsWait(s: State) {
    s.queued != multiset{} || s.dispatched != multiset{} || s.inHand != multiset{} || s.channel != []
  }

  // ---------------------------------------------------------------- where a hung worker comes from

  /** This step was a compile that failed on the item. */
  ghost predicate FailedOn(s: State, t: State, item: Item) {
    exists w: nat, saved :: Enabled(s, CompileFails(w, saved)) && s.workers[w].item == item && t == Do(s, CompileFails(w, saved))
  }

  lemma StepBreaks(s: State, a: Action, item: Item)
    requires Enabled(s, a) && item !in s.broken && item in Do(s, a).broken
    ensures FailedOn(s, Do(s, a), item)
  {
    assert a == CompileFails(a.w, a.saved);
  }

  ghost predicate FailedBefore(ss: seq<State>, i: nat, item: Item)
    requires i < |ss|
  {
    exists j :: 0 <= j < i && FailedOn(ss[j], ss[j + 1], item)
  }

  lemma RunStepBreaks(ss: seq<State>, workers: nat, i: nat, item: Item)
    requires IsRun(ss, workers) && i < |ss| - 1
    requires item !in ss[i].broken && item in ss[i + 1].broken
    ensures FailedOn(ss[i], ss[i + 1], item)
  {
    assert Next(ss[i], ss[i + 1]);
    var a :| Enabled(ss[i], a) && ss[i + 1] == Do(ss[i], a);
    StepBreaks(ss[i], a, item);
  }

  /** A worker hangs only on an item whose checker failed to compile earlier in the run. */
  lemma {:induction false} HungByFailure(ss: seq<State>, workers: nat, i: nat, item: Item)
    requires IsRun(ss, workers) && i < |ss| && item in ss[i].broken
    ensures FailedBefore(ss, i, item)
  {
    if item in ss[i - 1].broken {
      HungByFailure(ss, workers, i - 1, item);
      var j :| 0 <= j < i - 1 && FailedOn(ss[j], ss[j + 1], item);
    } else {
      RunStepBreaks(ss, workers, i - 1, item);
      assert FailedOn(ss[i - 1], ss[i - 1 + 1], item);
    }
  }

  // ---------------------------------------------------------------- when nothing moves

  /** With every worker hung, only the outside world moves. */
  lemma AllHungWait(s: State, a: Action)
    requires Inv(s) && Enabled(s, a) && forall w: nat :: w < |s.workers| ==> Hung(s, w)
    ensures a.Publish? || a.Crash?
  {
    forall w | 0 <= w < |s.workers| ensures s.workers[w].Holding? && s.workers[w].item in s.broken {
      assert Hung(s, w);
    }
    AllRunning(s.workers);
    assert |Unacked(s)| == Load(s) == |s.workers|;
    assert s.dispatched == multiset{} && s.inHand == multiset{} && s.channel == [];
  }

  /** What is left to do: stages before the worker, and then stages within it. */
  function Stage(pc: Pc): nat {
    match pc
    case Idle => 0
    case Fetching(_) => 3
    case Holding(_, _) => 2
    case Judging(_) => 1
  }

  function Work(workers: seq<Pc>): nat {
    if workers == [] then 0 else Stage(workers[0]) + Work(workers[1..])
  }

  function Remaining(s: State): nat {
    7 * |s.queued| + 6 * |s.dispatched| + 5 * |s.inHand| + 4 * |s.channel| + Work(s.workers)
  }

  lemma {:induction false} WorkSet(workers: seq<Pc>, w: nat, pc: Pc)
    requires w < |workers|
    ensures Work(workers[w := pc]) + Stage(workers[w]) == Work(workers) + Stage(pc)
  {
    var changed := workers[w := pc];
    if w > 0 {
      WorkSet(workers[1..], w - 1, pc);
      assert changed[1..] == workers[1..][w - 1 := pc];
    } else {
      assert changed[1..] == workers[1..];
    }
  }

  /** Nothing going wrong: no crash, no failed fetch, compile, decode or save, and no new job. */
  predicate Smooth(a: Action) {
    a.Dispatch? || a.Take? || a.Send? || a.Receive? || a.Fetch? || a.GetChecker? || (a.Finish? && a.saved)
  }

  function FreshItem(items: set<Item>): (item: Item)
    ensures item !in items
  {
    MaxBound(items);
    var item: Item :| item !in items && forall other: Item :: other < item ==> other in items;
    item
  }

  lemma {:induction false} MaxBound(items: set<Item>)
    ensures exists item: Item :: item !in items && forall other: Item :: other < item ==> other in items
  {
    var item: Item := 0;
    var below: set<Item> := {};
    while item in items
      invariant below <= items && item !in below
      invariant forall other: Item :: other < item <==> other in below
      decreases items - below
    {
      below := below + {item};
      item := item + 1;
    }
  }

  /** A worker with a job, or any worker while jobs wait, gives the protocol a smooth step. */
  lemma WorkerGoesOn(s: State, w: nat) returns (a: Action)
    requires Inv(s) && w < |s.workers| && !s.workers[w].Idle? && !Hung(s, w)
    ensures Enabled(s, a) && Smooth(a) && Remaining(Do(s, a)) < Remaining(s)
    ensures Do(s, a).published == s.published
    ensures forall v: nat :: Hung(Do(s, a), v) ==> Hung(s, v)
  {
    match s.workers[w] {
      case Fetching(d) =>
        var item := FreshItem(s.broken);
        a := Fetch(w, item);
        WorkSet(s.workers, w, Holding(d, item));
      case Holding(d, _) =>
        a := GetChecker(w);
        WorkSet(s.workers, w, Judging(d));
      case Judging(d) =>
        a := Finish(w, true);
        WorkSet(s.workers, w, Idle);
    }
  }

  /** Taking a job from the channel. */
  lemma ReceiveGoesOn(s: State, w: nat)
    requires w < |s.workers| && s.workers[w].Idle? && s.channel != []
    ensures Enabled(s, Receive(w)) && Remaining(Do(s, Receive(w))) < Remaining(s)
    ensures forall v: nat :: Hung(Do(s, Receive(w)), v) ==> Hung(s, v)
  {
    WorkSet(s.workers, w, Fetching(s.channel[0]));
  }

  /** Steps before the worker. */
  lemma HandingGoesOn(s: State, a: Action)
    requires Enabled(s, a) && (a.Dispatch? || a.Take? || a.Send?)
    ensures Remaining(Do(s, a)) < Remaining(s)
    ensures Do(s, a).workers == s.workers && Do(s, a).broken == s.broken && Do(s, a).published == s.published
  {
    match a
    case Dispatch(d) => OneLess(s.queued, d);
    case Take(d) => OneLess(s.dispatched, d);
    case Send(d) => OneLess(s.inHand, d);
  }

  lemma OneLess(jobs: multiset<Job>, d: Job)
    requires d in jobs
    ensures |jobs - multiset{d}| == |jobs| - 1
  {
  }

  lemma DispatchPossible(s: State, w: nat) returns (a: Action)
    requires Inv(s) && w < |s.workers| && s.workers[w].Idle? && JobsWait(s)
    requires s.channel == [] && s.inHand == multiset{}
    ensures Enabled(s, a) && (a.Dispatch? || a.Take?)
  {
    if d :| d in s.dispatched {
      a := Take(d);
    } else {
      assert s.dispatched == multiset{};
      SomeIdle(s.workers, w);
      assert |Unacked(s)| == Load(s);
      var d :| d in s.queued;
      a := Dispatch(d);
    }
  }

  lemma JobGoesOn(s: State, w: nat) returns (a: Action)
    requires Inv(s) && w < |s.workers| && s.workers[w].Idle? && JobsWait(s)
    ensures Enabled(s, a) && Smooth(a) && Remaining(Do(s, a)) < Remaining(s)
    ensures Do(s, a).published == s.published
    ensures forall v: nat :: Hung(Do(s, a), v) ==> Hung(s, v)
  {
    if s.channel != [] {
      a := Receive(w);
      ReceiveGoesOn(s, w);
    } else {
      if d :| d in s.inHand {
        RoomForAll(s);
        a := Send(d);
      } else {
        assert s.inHand == multiset{};
        a := DispatchPossible(s, w);
      }
      HandingGoesOn(s, a);
    }
  }

  /** While jobs wait to be judged, the protocol can go on by itself exactly as long as some worker is not
      hung. */
  lemma NoDeadlock(ss: seq<State>, workers: nat, i: nat)
    requires IsRun(ss, workers) && i < |ss| && JobsWait(ss[i])
    ensures (exists a :: Enabled(ss[i], a) && !a.Publish? && !a.Crash?) <==> (exists w: nat :: w < workers && !Hung(ss[i], w))
  {
    var s := ss[i];
    RunKeepsInv(ss, workers, i);
    if w: nat :| w < workers && !Hung(s, w) {
      var a;
      if s.workers[w].Idle? {
        a := JobGoesOn(s, w);
      } else {
        a := WorkerGoesOn(s, w);
      }
      assert Enabled(s, a) && !a.Publish? && !a.Crash?;
    } else if a :| Enabled(s, a) && !a.Publish? && !a.Crash? {
      AllHungWait(s, a);
    }
  }

  // ---------------------------------------------------------------- when everything gets settled

  predicate AllSettled(s: State) {
    s.published == s.acked + s.nacked
  }

  ghost predicate NoneHung(s: State) {
    forall w: nat :: !Hung(s, w)
  }

  lemma {:induction false} HeldIsRunning(workers: seq<Pc>, w: nat)
    requires w < |workers| && !workers[w].Idle?
    ensures Running(workers)[workers[w].job] > 0
  {
    if w > 0 {
      HeldIsRunning(workers[1..], w - 1);
    }
  }

  lemma SettledMeansIdle(s: State, w: nat)
    requires Inv(s) && AllSettled(s) && w < |s.workers|
    ensures s.workers[w].Idle?
  {
    assert s.workers[w].Idle? || Total(s, s.workers[w].job) == s.published[s.workers[w].job];
    if !s.workers[w].Idle? {
      HeldIsRunning(s.workers, w);
    }
  }

  lemma IdleMeansSettled(s: State)
    requires Inv(s) && !JobsWait(s) && forall w :: 0 <= w < |s.workers| ==> s.workers[w].Idle?
    ensures AllSettled(s)
  {
    NoneRunning(s.workers);
    forall d ensures s.published[d] == (s.acked + s.nacked)[d] {
      assert Total(s, d) == s.published[d];
    }
  }

  ghost predicate Ready(s: State) {
    Inv(s) && NoneHung(s) && |s.workers| >= 1
  }

  lemma OneStageFurther(s: State) returns (a: Action)
    requires Ready(s) && !AllSettled(s)
    ensures Enabled(s, a) && Smooth(a) && Remaining(Do(s, a)) < Remaining(s)
    ensures Do(s, a).published == s.published && Do(s, a).nacked == s.nacked && Ready(Do(s, a))
  {
    if w :| 0 <= w < |s.workers| && !s.workers[w].Idle? {
      a := WorkerGoesOn(s, w);
    } else {
      if !JobsWait(s) {
        IdleMeansSettled(s);
      }
      a := JobGoesOn(s, 0);
    }
    StepKeepsInv(s, a);
    StepPublishes(s, a, 0);
    SmoothNacksNothing(s, a);
  }

  lemma SmoothNacksNothing(s: State, a: Action)
    requires Enabled(s, a) && Smooth(a)
    ensures Do(s, a).nacked == s.nacked
  {
  }

  predicate AllSmooth(steps: seq<Action>) {
    forall i :: 0 <= i < |steps| ==> Smooth(steps[i])
  }

  /** With nobody hung, smooth steps settle everything. */
  lemma {:induction false} PathToSettled(s: State) returns (steps: seq<Action>, t: State)
    requires Ready(s)
    ensures Path(After, s, steps, t) && AllSmooth(steps)
    ensures AllSettled(t) && t.published == s.published
    ensures t.nacked == s.nacked && t.acked == t.published - t.nacked
    decreases Remaining(s)
  {
    if AllSettled(s) {
      steps, t := [], s;
    } else {
      var a := OneStageFurther(s);
      var rest;
      rest, t := PathToSettled(Do(s, a));
      steps := [a] + rest;
      PathFrom(After, s, a, rest, t);
      SmoothFrom(a, rest);
    }
  }

  lemma SmoothFrom(a: Action, steps: seq<Action>)
    requires Smooth(a) && AllSmooth(steps)
    ensures AllSmooth([a] + steps)
  {
  }

  /** The process does not come down, and no new job arrives. */
  predicate WithoutRestart(steps: seq<Action>) {
    forall i :: 0 <= i < |steps| ==> !steps[i].Publish? && !steps[i].Crash? && !steps[i].FailEarly?
  }

  lemma HungStays(s: State, a: Action, w: nat)
    requires Enabled(s, a) && Hung(s, w) && !a.Crash? && !a.FailEarly?
    ensures Hung(Do(s, a), w)
  {
  }

  lemma {:induction false} HungThroughout(s: State, steps: seq<Action>, t: State, w: nat)
    requires Inv(s) && Path(After, s, steps, t) && WithoutRestart(steps) && Hung(s, w)
    ensures Inv(t) && Hung(t, w)
    decreases |steps|
  {
    if steps != [] {
      HungStays(s, steps[0], w);
      StepKeepsInv(s, steps[0]);
      HungThroughout(Do(s, steps[0]), steps[1..], t, w);
    }
  }

  lemma HungNeverSettles(s: State, steps: seq<Action>, t: State, w: nat)
    requires Inv(s) && Hung(s, w) && Path(After, s, steps, t) && WithoutRestart(steps)
    ensures !AllSettled(t)
  {
    HungThroughout(s, steps, t, w);
    if AllSettled(t) {
      SettledMeansIdle(t, w);
    }
  }

  /** Everything published so far can be settled without a restart. */
  ghost predicate CanSettle(s: State) {
    exists steps, t :: Path(After, s, steps, t) && WithoutRestart(steps) && AllSettled(t)
  }

  /** Everything published can be settled without a restart exactly if no worker is hung. */
  lemma SettlesIffNoneHung(ss: seq<State>, workers: nat, i: nat)
    requires IsRun(ss, workers) && i < |ss| && workers >= 1
    ensures CanSettle(ss[i]) <==> NoneHung(ss[i])
  {
    RunKeepsInv(ss, workers, i);
    SettlesIff(ss[i]);
  }

  lemma SettlesIff(s: State)
    requires Inv(s) && |s.workers| >= 1
    ensures CanSettle(s) <==> NoneHung(s)
  {
    if NoneHung(s) {
      var steps, t := PathToSettled(s);
      assert WithoutRestart(steps);
    } else if CanSettle(s) {
      var w: nat :| Hung(s, w);
      var steps, t :| Path(After, s, steps, t) && WithoutRestart(steps) && AllSettled(t);
      HungNeverSettles(s, steps, t, w);
    }
  }

  // ---------------------------------------------------------------- a stuck run

  lemma RunAppend(ss: seq<State>, workers: nat, a: Action) returns (ts: seq<State>)
    requires IsRun(ss, workers) && Enabled(ss[|ss| - 1], a)
    ensures IsRun(ts, workers) && ts[|ts| - 1] == Do(ss[|ss| - 1], a)
  {
    ts := ss + [Do(ss[|ss| - 1], a)];
    forall i | 0 <= i < |ts| - 1 ensures Next(ts[i], ts[i + 1]) {
      if i < |ss| - 1 {
        assert Next(ss[i], ss[i + 1]);
      }
    }
  }

  /** Nothing is on its way to the workers. */
  predicate Clear(s: State) {
    s.queued == multiset{} && s.dispatched == multiset{} && s.inHand == multiset{} && s.channel == []
  }

  /** A new job goes all the way to an idle worker. */
  lemma JobArrives(ss: seq<State>, workers: nat, w: nat, d: Job) returns (ts: seq<State>)
    requires IsRun(ss, workers)
    requires var s := ss[|ss| - 1]; Clear(s) && d !in s.published && w < |s.workers| && s.workers[w].Idle?
    ensures IsRun(ts, workers)
    ensures var s := ss[|ss| - 1];
            ts[|ts| - 1] == s.(published := s.published + multiset{d}, workers := s.workers[w := Fetching(d)])
  {
    var s := ss[|ss| - 1];
    SomeIdle(s.workers, w);
    assert |Unacked(s)| == Load(s);
    ts := RunAppend(ss, workers, Publish(d));
    assert Unacked(ts[|ts| - 1]) == Unacked(s);
    ts := RunAppend(ts, workers, Dispatch(d));
    ts := RunAppend(ts, workers, Take(d));
    ts := RunAppend(ts, workers, Send(d));
    ts := RunAppend(ts, workers, Receive(w));
  }

  lemma JobHolds(ss: seq<State>, workers: nat, w: nat, d: Job, item: Item) returns (ts: seq<State>)
    requires IsRun(ss, workers)
    requires var s := ss[|ss| - 1]; Clear(s) && d !in s.published && w < |s.workers| && s.workers[w].Idle?
    ensures IsRun(ts, workers)
    ensures var s := ss[|ss| - 1];
            ts[|ts| - 1] == s.(published := s.published + multiset{d}, workers := s.workers[w := Holding(d, item)])
  {
    ts := JobArrives(ss, workers, w, d);
    ts := RunAppend(ts, workers, Fetch(w, item));
  }

  /** One failed compile, and then a job of the same problem for every worker. */
  lemma {:induction false} JammedRun(workers: nat, k: nat) returns (ss: seq<State>)
    requires k <= workers && workers >= 1
    ensures IsRun(ss, workers)
    ensures var s := ss[|ss| - 1];
            && Clear(s) && s.broken == {0} && |s.workers| == workers
            && (forall d :: d in s.published ==> d <= k)
            && (forall w: nat :: w < k ==> Hung(s, w))
            && (forall w :: k <= w < workers ==> s.workers[w].Idle?)
  {
    if k == 0 {
      ss := [Initial(workers)];
      ss := JobHolds(ss, workers, 0, 0, 0);
      ss := RunAppend(ss, workers, CompileFails(0, true));
    } else {
      ss := JammedRun(workers, k - 1);
      var s := ss[|ss| - 1];
      ss := JobHolds(ss, workers, k - 1, k, 0);
      var t := ss[|ss| - 1];
      forall w: nat | w < k ensures Hung(t, w) {
        assert w < k - 1 ==> Hung(s, w);
      }
    }
  }

  /** For any number of workers there is a run after which they all hang while a job waits: one more job
      than workers of a problem whose checker does not compile, and then another job. */
  lemma StuckRun(workers: nat) returns (ss: seq<State>)
    requires workers >= 1
    ensures IsRun(ss, workers)
    ensures var s := ss[|ss| - 1];
            && JobsWait(s) && (forall w: nat :: w < workers ==> Hung(s, w))
            && (forall a :: Enabled(s, a) ==> a.Publish? || a.Crash?)
  {
    ss := JammedRun(workers, workers);
    var s := ss[|ss| - 1];
    var d := workers + 1;
    assert d !in s.published;
    ss := RunAppend(ss, workers, Publish(d));
    var t := ss[|ss| - 1];
    assert t.workers == s.workers && t.broken == s.broken;
    assert t.queued[d] > 0 && t.queued != multiset{};
    RunKeepsInv(ss, workers, |ss| - 1);
    assert |t.workers| == workers;
    forall w: nat | w < workers ensures Hung(t, w) {
      assert Hung(s, w);
    }
    forall a | Enabled(t, a) ensures a.Publish? || a.Crash? {
      AllHungWait(t, a);
    }
  }
}
