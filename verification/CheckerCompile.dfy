/** The checker binary of one cached artefact: execution-engine/worker/compile.go.

    Workers check the binary under the item's read lock, check it again under its write lock, and
    compile it there.  After a successful re-check the lock is released before the binary is read.  A
    failed compile returns with the write lock still held. */
module CheckerCompile {
  import opened Options
  import opened Paths
  import opened Cache

  type Binary = seq<bv8>

  datatype Pc = Entry | Missed | Locked | Compiling | Reading | Returned(bin: Binary) | GaveUp

  datatype Lock = Free | ByWorker(w: nat) | Abandoned

  /** `sets` counts the assignments to the item's binary. */
  datatype State = State(bin: Option<Binary>, lock: Lock, workers: seq<Pc>, sets: nat)

  datatype Action =
    | Check(w: nat)
    | Acquire(w: nat)
    | Recheck(w: nat)
    | Compile(w: nat, result: Option<Binary>)
    | ReadOut(w: nat)
    | NextJob(w: nat)

  predicate Enabled(s: State, a: Action) {
    && a.w < |s.workers|
    && match a
       case Check(w) => s.workers[w].Entry? && s.lock == Free
       case Acquire(w) => s.workers[w].Missed? && s.lock == Free
       case Recheck(w) => s.workers[w].Locked?
       case Compile(w, _) => s.workers[w].Compiling?
       case ReadOut(w) => s.workers[w].Reading? && s.bin.Some?
       case NextJob(w) => s.workers[w].Returned? || s.workers[w].GaveUp?
  }

  function Do(s: State, a: Action): State
    requires Enabled(s, a)
  {
    match a
    case Check(w) => s.(workers := s.workers[w := if s.bin.Some? then Returned(s.bin.value) else Missed])
    case Acquire(w) => s.(workers := s.workers[w := Locked], lock := ByWorker(w))
    case Recheck(w) =>
      if s.bin.Some? then s.(workers := s.workers[w := Reading], lock := Free)
      else s.(workers := s.workers[w := Compiling])
    case Compile(w, result) =>
      if result.Some? then s.(workers := s.workers[w := Returned(result.value)], bin := result, lock := Free, sets := s.sets + 1)
      else s.(workers := s.workers[w := GaveUp], lock := Abandoned)
    case ReadOut(w) => s.(workers := s.workers[w := Returned(s.bin.value)])
    case NextJob(w) => s.(workers := s.workers[w := Entry])
  }

  ghost predicate Next(s: State, t: State) {
    exists a :: Enabled(s, a) && t == Do(s, a)
  }

  ghost predicate IsRun(ss: seq<State>, n: nat) {
    && ss != []
    && ss[0] == State(None, Free, seq(n, i => Entry), 0)
    && forall i :: 0 <= i < |ss| - 1 ==> Next(ss[i], ss[i + 1])
  }

  predicate Inside(pc: Pc) {
    pc.Locked? || pc.Compiling?
  }

  ghost predicate Inv(s: State) {
    && (forall w :: 0 <= w < |s.workers| ==> (Inside(s.workers[w]) <==> s.lock == ByWorker(w)))
    && (s.lock.ByWorker? ==> s.lock.w < |s.workers|)
    && (forall w :: 0 <= w < |s.workers| && s.workers[w].Compiling? ==> s.bin == None)
    && (forall w :: 0 <= w < |s.workers| && s.workers[w].Reading? ==> s.bin.Some?)
    && (forall w :: 0 <= w < |s.workers| && s.workers[w].Returned? ==> s.bin == Some(s.workers[w].bin))
    && (s.lock == Abandoned ==> s.bin == None)
    && s.sets == (if s.bin.Some? then 1 else 0)
  }

  lemma StepKeepsInv(s: State, a: Action)
    requires Inv(s) && Enabled(s, a)
    ensures Inv(Do(s, a))
    ensures s.bin.Some? ==> Do(s, a).bin == s.bin
    ensures s.lock == Abandoned ==> Do(s, a).lock == Abandoned && Do(s, a).bin == None
  {
    var t := Do(s, a);
    assert t.workers == s.workers[a.w := t.workers[a.w]];
  }

  lemma {:induction false} RunKeepsInv(ss: seq<State>, n: nat, i: nat)
    requires IsRun(ss, n) && i < |ss|
    ensures Inv(ss[i])
  {
    if i > 0 {
      RunKeepsInv(ss, n, i - 1);
      assert Next(ss[i - 1], ss[i - 1 + 1]);
      var a :| Enabled(ss[i - 1], a) && ss[i] == Do(ss[i - 1], a);
      StepKeepsInv(ss[i - 1], a);
    }
  }

  lemma {:induction false} Later(ss: seq<State>, n: nat, i: nat, j: nat)
    requires IsRun(ss, n) && i <= j < |ss|
    ensures ss[i].bin.Some? ==> ss[j].bin == ss[i].bin
    ensures ss[i].lock == Abandoned ==> ss[j].lock == Abandoned
  {
    if i < j {
      Later(ss, n, i, j - 1);
      RunKeepsInv(ss, n, j - 1);
      assert Next(ss[j - 1], ss[j - 1 + 1]);
      var a :| Enabled(ss[j - 1], a) && ss[j] == Do(ss[j - 1], a);
      StepKeepsInv(ss[j - 1], a);
    }
  }

  /** Over the life of an item the binary is assigned at most once, at most one worker compiles at a
      time, and any two workers that return a binary, at any two points of the run, return the same. */
  lemma OneBinaryPerItem(ss: seq<State>, n: nat, i: nat, j: nat, v: nat, w: nat)
    requires IsRun(ss, n) && i <= j < |ss| && v < |ss[i].workers| && w < |ss[j].workers|
    ensures ss[j].sets <= 1
    ensures ss[i].workers[v].Returned? && ss[j].workers[w].Returned? ==> ss[i].workers[v].bin == ss[j].workers[w].bin
    ensures i == j && Inside(ss[i].workers[v]) && Inside(ss[j].workers[w]) ==> v == w
  {
    RunKeepsInv(ss, n, i);
    RunKeepsInv(ss, n, j);
    Later(ss, n, i, j);
  }

  predicate Waiting(pc: Pc) {
    !pc.Returned? && !pc.GaveUp?
  }

  /** A compile of the item came back without a binary. */
  ghost predicate CompileFailed(s: State, t: State) {
    exists w :: Enabled(s, Compile(w, None)) && t == Do(s, Compile(w, None))
  }

  ghost predicate FailedBefore(ss: seq<State>, i: nat)
    requires i < |ss|
  {
    exists j :: 0 <= j < i && CompileFailed(ss[j], ss[j + 1])
  }

  lemma StepAbandons(s: State, a: Action)
    requires Enabled(s, a) && s.lock != Abandoned && Do(s, a).lock == Abandoned
    ensures CompileFailed(s, Do(s, a))
  {
    assert a == Compile(a.w, None);
  }

  /** The lock is abandoned exactly once a compile has failed. */
  lemma {:induction false} AbandonedIffFailed(ss: seq<State>, n: nat, i: nat)
    requires IsRun(ss, n) && i < |ss|
    ensures ss[i].lock == Abandoned <==> FailedBefore(ss, i)
  {
    if i > 0 {
      AbandonedIffFailed(ss, n, i - 1);
      RunKeepsInv(ss, n, i - 1);
      var s, t := ss[i - 1], ss[i - 1 + 1];
      assert Next(s, t);
      var a :| Enabled(s, a) && t == Do(s, a);
      StepKeepsInv(s, a);
      if FailedBefore(ss, i - 1) {
        var j :| 0 <= j < i - 1 && CompileFailed(ss[j], ss[j + 1]);
      } else if t.lock == Abandoned {
        StepAbandons(s, a);
      }
    }
  }

  /** The workers waiting for the item can go on exactly as long as no compile of it has failed: after a
      failure the lock stays taken, nobody ever gets a binary, and no waiting worker has a step left. */
  lemma ItemUsableIffNoFailure(ss: seq<State>, n: nat, i: nat)
    requires IsRun(ss, n) && i < |ss|
    requires exists w :: 0 <= w < |ss[i].workers| && Waiting(ss[i].workers[w])
    ensures !FailedBefore(ss, i) <==> exists a :: Enabled(ss[i], a) && Waiting(ss[i].workers[a.w])
    ensures FailedBefore(ss, i) ==>
              forall j, w :: i <= j < |ss| && 0 <= w < |ss[j].workers| ==> !ss[j].workers[w].Returned?
  {
    var s := ss[i];
    RunKeepsInv(ss, n, i);
    AbandonedIffFailed(ss, n, i);
    if s.lock == Abandoned {
      forall j, w | i <= j < |ss| && 0 <= w < |ss[j].workers| ensures !ss[j].workers[w].Returned? {
        Later(ss, n, i, j);
        RunKeepsInv(ss, n, j);
      }
    } else {
      var w :| 0 <= w < |s.workers| && Waiting(s.workers[w]);
      var a := SomeStep(s, w);
    }
  }

  lemma SomeStep(s: State, w: nat) returns (a: Action)
    requires Inv(s) && s.lock != Abandoned && w < |s.workers| && Waiting(s.workers[w])
    ensures Enabled(s, a) && Waiting(s.workers[a.w])
  {
    var v := if s.lock.ByWorker? then s.lock.w else w;
    match s.workers[v] {
      case Entry => a := Check(v);
      case Missed => a := Acquire(v);
      case Locked => a := Recheck(v);
      case Compiling => a := Compile(v, None);
      case Reading => a := ReadOut(v);
    }
  }

  ghost function After(s: State, a: Action): Option<State> {
    if Enabled(s, a) then Some(Do(s, a)) else None
  }

  /** One call by worker `w` from a state in which the item's lock is free, with no other worker in
      between; `compiled` is what the compiler returns if it is run.  The item and the answer are those
      of the protocol's state `t` after the call's steps. */
  method CompileCheckerCode(item: S3Item, w: nat, compiled: Option<Binary>, ghost s: State)
    returns (bin: Option<Binary>, ghost steps: seq<Action>, ghost t: State)
    requires s.bin == item.compiledBin && s.lock == Free && w < |s.workers| && s.workers[w].Entry?
    modifies item
    ensures Path(After, s, steps, t)
    ensures steps == if old(item.compiledBin).Some? then [Check(w)] else [Check(w), Acquire(w), Recheck(w), Compile(w, compiled)]
    ensures item.compiledBin == t.bin && (t.lock == Abandoned <==> bin.None?)
    ensures w < |t.workers| && t.workers[w] == if bin.Some? then Returned(bin.value) else GaveUp
  {
    steps, t := [Check(w)], Do(s, Check(w));
    assert Path(After, s, [], s);
    PathMore(After, s, [], s, Check(w));
    assert [] + [Check(w)] == [Check(w)];
    bin := item.compiledBin;
    if bin.Some? {
      return;
    }
    PathMore(After, s, steps, t, Acquire(w));
    steps, t := steps + [Acquire(w)], Do(t, Acquire(w));
    PathMore(After, s, steps, t, Recheck(w));
    steps, t := steps + [Recheck(w)], Do(t, Recheck(w));
    PathMore(After, s, steps, t, Compile(w, compiled));
    steps, t := steps + [Compile(w, compiled)], Do(t, Compile(w, compiled));
    if compiled.None? {
      return None, steps, t;
    }
    item.compiledBin := compiled;
    bin := compiled;
  }
}
