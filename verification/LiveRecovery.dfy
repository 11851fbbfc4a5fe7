/** Recovery of the live protocol: from every reachable state, faults or not behind it, processing what is
    outstanding leads to a right leaderboard. */
module LiveRecovery {
  import opened Options
  import opened Paths
  import opened LiveStore
  import opened LiveProtocol

  ghost function After(s: State, a: Action): Option<State> {
    if Enabled(s, a) then Some(Do(s, a)) else None
  }

  /** A path of steps extends a run, so everything the protocol keeps holds after it. */
  lemma {:induction false} PathExtendsRun(ss: seq<State>, steps: seq<Action>, t: State) returns (more: seq<State>)
    requires IsRun(ss) && Path(After, ss[|ss| - 1], steps, t)
    ensures IsRun(ss + more) && (ss + more)[|ss + more| - 1] == t && |more| == |steps|
    decreases |steps|
  {
    if steps == [] {
      more := [];
      assert ss + more == ss;
    } else {
      var s := ss[|ss| - 1];
      var next := Do(s, steps[0]);
      assert Next(s, next);
      var rest := PathExtendsRun(ss + [next], steps[1..], t);
      more := [next] + rest;
      assert ss + more == ss + [next] + rest;
    }
  }

  lemma PathKeepsInv(ss: seq<State>, steps: seq<Action>, t: State)
    requires IsRun(ss) && Path(After, ss[|ss| - 1], steps, t)
    ensures Inv(t)
  {
    var more := PathExtendsRun(ss, steps, t);
    var all := ss + more;
    RunKeepsInv(all, |all| - 1);
  }

  // ---------------------------------------------------------------- the way to quiescence

  /** Receiving, processing, answering and acking, with nothing going wrong. */
  predicate FaultFree(steps: seq<Action>) {
    forall i :: 0 <= i < |steps| ==> steps[i].Receive? || steps[i].Script? || steps[i].PerformWrite? || steps[i].Ack?
  }

  function Outstanding(s: State): nat {
    4 * |s.ready| + 3 * |s.received| + 2 * |s.pending| + |s.written|
  }

  /** Some message can always be brought one stage further. */
  lemma OneStageFurther(s: State) returns (a: Action)
    requires !Quiescent(s)
    ensures Enabled(s, a) && FaultFree([a])
    ensures Outstanding(Do(s, a)) < Outstanding(s) && Do(s, a).published == s.published
  {
    if v :| v in s.ready {
      a := Receive(v);
      assert s.ready == Do(s, a).ready + multiset{v};
    } else if v :| v in s.received {
      a := Script(v);
      assert s.received == Do(s, a).received + multiset{v};
    } else if s.pending != [] {
      a := PerformWrite;
    } else {
      assert s.written != multiset{};
      var v :| v in s.written;
      a := Ack(v);
      assert s.written == Do(s, a).written + multiset{v};
    }
  }

  lemma {:induction false} PathToQuiescence(s: State) returns (steps: seq<Action>, t: State)
    ensures FaultFree(steps) && Path(After, s, steps, t)
    ensures Quiescent(t) && t.published == s.published
    decreases Outstanding(s)
  {
    if Quiescent(s) {
      steps, t := [], s;
    } else {
      var a := OneStageFurther(s);
      var rest;
      rest, t := PathToQuiescence(Do(s, a));
      steps := [a] + rest;
      assert steps[1..] == rest;
    }
  }

  /** Whatever went wrong so far, fault-free processing of what is outstanding extends the run to a state
      in which everything published is recorded and acked and the sorted set is the score of every record. */
  lemma AlwaysRecovers(ss: seq<State>) returns (steps: seq<Action>, more: seq<State>)
    requires IsRun(ss)
    ensures FaultFree(steps) && IsRun(ss + more)
    ensures var s, t := ss[|ss| - 1], (ss + more)[|ss + more| - 1];
            && Path(After, s, steps, t) && Quiescent(t) && t.published == s.published == t.acked
            && t.leaderboard == ScoreTable(t.metadata)
            && forall v :: v in s.published <==> v in t.applied
  {
    var t;
    steps, t := PathToQuiescence(ss[|ss| - 1]);
    more := PathExtendsRun(ss, steps, t);
    var last := |ss + more| - 1;
    RunKeepsInv(ss + more, last);
    QuiescentLeaderboard(ss + more, last);
  }
}
