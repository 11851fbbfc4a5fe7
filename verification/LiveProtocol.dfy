/** The live verdict consumer as a protocol: leaderboard-service/src/tasks/rabbitmq.task.ts around
    leaderboard-service/src/services/redis.service.ts.

    The broker delivers at least once.  A message is received, its script is applied, the sorted-set
    write is sent, and only then is it acked; an exception at any point nacks it back onto the queue,
    and a crash gives every unacked message back.  Redis keeps its contents throughout.  One consumer
    instance with one Redis connection sends its writes in script order, so the writes in flight are
    a queue; any of them may still be lost, or be performed with its reply lost.  Freezing and forced
    recalculation are not steps of this protocol. */
module LiveProtocol {
  import opened Options
  import opened Seqs
  import opened Scoring
  import opened OrderLaws
  import opened LiveStore

  /** A sorted-set write on its way, carrying the score computed after the script of `msg`. */
  datatype Write = Write(msg: Verdict, score: int)

  datatype State = State(
    published: multiset<Verdict>,
    ready: multiset<Verdict>,
    received: multiset<Verdict>,
    pending: seq<Write>,
    written: multiset<Verdict>,
    acked: multiset<Verdict>,
    applied: seq<Verdict>,
    metadata: Metadata,
    leaderboard: map<string, int>)

  datatype Action =
    | Publish(v: Verdict)
    | Receive(v: Verdict)
    | FailBeforeScript(v: Verdict)
    | Script(v: Verdict)
    | ScriptReplyLost(v: Verdict)
    | PerformWrite
    | WriteReplyLost
    | DropWrite(i: nat)
    | Ack(v: Verdict)
    | Crash

  ghost predicate Enabled(s: State, a: Action) {
    match a
    case Publish(v) => forall w | w in s.published && w.submissionId == v.submissionId :: w == v
    case Receive(v) => v in s.ready
    case FailBeforeScript(v) => v in s.received
    case Script(v) => v in s.received
    case ScriptReplyLost(v) => v in s.received
    case PerformWrite => s.pending != []
    case WriteReplyLost => s.pending != []
    case DropWrite(i) => i < |s.pending|
    case Ack(v) => v in s.written
    case Crash => true
  }

  function Messages(ws: seq<Write>): multiset<Verdict> {
    if ws == [] then multiset{} else multiset{ws[0].msg} + Messages(ws[1..])
  }

  ghost function ApplyScript(s: State, v: Verdict): State {
    s.(received := s.received - multiset{v},
       applied := s.applied + [v],
       metadata := UpdateUserState(s.metadata, v))
  }

  /** The write at position `i` reaches the sorted set. */
  function WriteAt(s: State, i: nat): State
    requires i < |s.pending|
  {
    var w := s.pending[i];
    s.(pending := s.pending[..i] + s.pending[i + 1..],
       leaderboard := s.leaderboard[w.msg.userId := w.score])
  }

  /** The write at position `i` reaches the sorted set and is answered. */
  function PerformAt(s: State, i: nat): State
    requires i < |s.pending|
  {
    WriteAt(s, i).(written := s.written + multiset{s.pending[i].msg})
  }

  ghost function Do(s: State, a: Action): State
    requires Enabled(s, a)
  {
    match a
    case Publish(v) => s.(published := s.published + multiset{v}, ready := s.ready + multiset{v})
    case Receive(v) => s.(ready := s.ready - multiset{v}, received := s.received + multiset{v})
    case FailBeforeScript(v) => s.(received := s.received - multiset{v}, ready := s.ready + multiset{v})
    case Script(v) =>
      var t := ApplyScript(s, v);
      t.(pending := s.pending + [Write(v, PackedScore(RecordOf(t.metadata, v.userId)))])
    case ScriptReplyLost(v) =>
      ApplyScript(s, v).(ready := s.ready + multiset{v})
    case PerformWrite => PerformAt(s, 0)
    case WriteReplyLost => WriteAt(s, 0).(ready := s.ready + multiset{s.pending[0].msg})
    case DropWrite(i) =>
      s.(pending := s.pending[..i] + s.pending[i + 1..], ready := s.ready + multiset{s.pending[i].msg})
    case Ack(v) => s.(written := s.written - multiset{v}, acked := s.acked + multiset{v})
    case Crash =>
      s.(ready := s.ready + s.received + Messages(s.pending) + s.written,
         received := multiset{}, pending := [], written := multiset{})
  }

  const INITIAL: State := State(multiset{}, multiset{}, multiset{}, [], multiset{}, multiset{}, [], map[], map[])

  ghost predicate Next(s: State, t: State) {
    exists a :: Enabled(s, a) && t == Do(s, a)
  }

  ghost predicate IsRun(ss: seq<State>) {
    && ss != []
    && ss[0] == INITIAL
    && forall i :: 0 <= i < |ss| - 1 ==> Next(ss[i], ss[i + 1])
  }

  // ---------------------------------------------------------------- what every step keeps

  /** Every published message is in exactly one stage. */
  ghost predicate Conserved(s: State) {
    s.published == s.ready + s.received + Messages(s.pending) + s.written + s.acked
  }

  ghost predicate OnePayload(s: State) {
    forall v, w :: v in s.published && w in s.published && v.submissionId == w.submissionId ==> v == w
  }

  /** Redis holds what the applied scripts made. */
  ghost predicate Stored(s: State) {
    && s.metadata == Deliver(s.applied)
    && (forall u :: u in s.leaderboard ==> u in s.metadata)
  }

  /** Nothing past the script is unrecorded. */
  ghost predicate PastScript(s: State) {
    && (forall v :: v in s.applied ==> v in s.published)
    && (forall i :: 0 <= i < |s.pending| ==> s.pending[i].msg in s.applied)
    && (forall v :: v in s.written ==> v in s.applied)
    && (forall v :: v in s.acked ==> v in s.applied)
  }

  ghost predicate Recorded(s: State) {
    Stored(s) && PastScript(s)
  }

  /** The score carried by the last write in flight for a user. */
  function LastWrite(ws: seq<Write>, user: string): Option<int> {
    if ws == [] then None
    else if LastWrite(ws[1..], user).Some? then LastWrite(ws[1..], user)
    else if ws[0].msg.userId == user then Some(ws[0].score)
    else None
  }

  ghost predicate RedeliveryDue(s: State, user: string) {
    exists v :: v in s.ready + s.received && v.userId == user && v in s.applied
  }

  /** The sorted set shows the user's score, or the last write in flight carries it, or a message
      already recorded for the user is still queued and will rescore. */
  ghost predicate Converging(s: State, user: string) {
    var score := PackedScore(RecordOf(s.metadata, user));
    || LastWrite(s.pending, user) == Some(score)
    || (LastWrite(s.pending, user) == None && user in s.leaderboard && s.leaderboard[user] == score)
    || RedeliveryDue(s, user)
  }

  ghost predicate Sound(s: State) {
    Conserved(s) && OnePayload(s) && Recorded(s)
  }

  ghost predicate Inv(s: State) {
    && Sound(s)
    && (forall u :: u in s.metadata ==> Converging(s, u))
  }

  // ---------------------------------------------------------------- writes in flight

  lemma {:induction false} MessagesSplit(a: seq<Write>, b: seq<Write>)
    ensures Messages(a + b) == Messages(a) + Messages(b)
  {
    if a == [] {
      assert a + b == b;
    } else {
      assert (a + b)[1..] == a[1..] + b;
      MessagesSplit(a[1..], b);
    }
  }

  lemma {:induction false} LastWriteSplit(a: seq<Write>, b: seq<Write>, user: string)
    ensures LastWrite(a + b, user) == if LastWrite(b, user).Some? then LastWrite(b, user) else LastWrite(a, user)
  {
    if a == [] {
      assert a + b == b;
    } else {
      assert (a + b)[1..] == a[1..] + b;
      LastWriteSplit(a[1..], b, user);
    }
  }

  lemma OneWrite(w: Write, user: string)
    ensures LastWrite([w], user) == if w.msg.userId == user then Some(w.score) else None
    ensures Messages([w]) == multiset{w.msg}
  {
    assert [w][1..] == [];
  }

  lemma TakeMessage(ws: seq<Write>, i: nat)
    requires i < |ws|
    ensures Messages(ws) == Messages(ws[..i] + ws[i + 1..]) + multiset{ws[i].msg}
  {
    var l, w, r := ws[..i], ws[i], ws[i + 1..];
    assert ws == l + ([w] + r);
    OneWrite(w, "");
    MessagesSplit(l, [w] + r);
    MessagesSplit([w], r);
    MessagesSplit(l, r);
  }

  lemma TakeWrite(ws: seq<Write>, i: nat, user: string)
    requires i < |ws| && ws[i].msg.userId != user
    ensures LastWrite(ws[..i] + ws[i + 1..], user) == LastWrite(ws, user)
  {
    var l, w, r := ws[..i], ws[i], ws[i + 1..];
    assert ws == l + ([w] + r);
    OneWrite(w, user);
    LastWriteSplit(l, [w] + r, user);
    LastWriteSplit([w], r, user);
    LastWriteSplit(l, r, user);
  }

  lemma {:induction false} LastWriteHasMessage(ws: seq<Write>, user: string) returns (i: nat)
    requires LastWrite(ws, user).Some?
    ensures i < |ws| && ws[i].msg.userId == user
  {
    if LastWrite(ws[1..], user).Some? {
      i := LastWriteHasMessage(ws[1..], user);
      i := i + 1;
    } else {
      i := 0;
    }
  }

  // ---------------------------------------------------------------- steps keep the invariant

  lemma ScriptConserves(s: State, v: Verdict)
    requires Conserved(s) && v in s.received
    ensures Conserved(Do(s, Script(v)))
  {
    var t := Do(s, Script(v));
    var w := t.pending[|s.pending|];
    MessagesSplit(s.pending, [w]);
    OneWrite(w, v.userId);
    assert s.received == t.received + multiset{v};
  }

  lemma ScriptReplyLostConserves(s: State, v: Verdict)
    requires Conserved(s) && v in s.received
    ensures Conserved(Do(s, ScriptReplyLost(v)))
  {
    var t := Do(s, ScriptReplyLost(v));
    assert s.received == t.received + multiset{v};
  }

  lemma WriteConserves(s: State, a: Action)
    requires Conserved(s) && Enabled(s, a)
    requires a.PerformWrite? || a.WriteReplyLost? || a.DropWrite?
    ensures Conserved(Do(s, a))
  {
    var i := if a.DropWrite? then a.i else 0;
    TakeMessage(s.pending, i);
    WriteMoves(s, a, i);
  }

  /** A write leaves its place and its message goes to another. */
  lemma WriteMoves(s: State, a: Action, i: nat)
    requires Enabled(s, a) && i < |s.pending|
    requires if a.DropWrite? then i == a.i else i == 0 && (a.PerformWrite? || a.WriteReplyLost?)
    ensures var t := Do(s, a);
            && t.published == s.published && t.received == s.received && t.acked == s.acked
            && t.applied == s.applied && t.metadata == s.metadata
            && t.pending == s.pending[..i] + s.pending[i + 1..]
            && t.leaderboard.Keys <= s.leaderboard.Keys + {s.pending[i].msg.userId}
            && t.ready == (if a.PerformWrite? then s.ready else s.ready + multiset{s.pending[i].msg})
            && t.written == (if a.PerformWrite? then s.written + multiset{s.pending[i].msg} else s.written)
  {
  }

  lemma MoveConserves(s: State, a: Action)
    requires Conserved(s) && Enabled(s, a)
    requires a.Publish? || a.Receive? || a.FailBeforeScript? || a.Ack? || a.Crash?
    ensures Conserved(Do(s, a))
  {
  }

  lemma StepKeepsOnePayload(s: State, a: Action)
    requires OnePayload(s) && Enabled(s, a)
    ensures OnePayload(Do(s, a))
  {
  }

  lemma ScriptKeepsRecorded(s: State, v: Verdict)
    requires Sound(s) && v in s.received
    ensures Stored(Do(s, Script(v))) && PastScript(Do(s, Script(v)))
  {
    ScriptKeepsStored(s, v);
    ScriptKeepsPast(s, v);
  }

  lemma ScriptKeepsStored(s: State, v: Verdict)
    requires Sound(s) && v in s.received
    ensures Stored(Do(s, Script(v)))
  {
    RecordScript(s, v);
  }

  lemma ScriptKeepsPast(s: State, v: Verdict)
    requires PastScript(s) && v in s.received && v in s.published
    ensures PastScript(Do(s, Script(v)))
  {
    var t := Do(s, Script(v));
    ScriptMoves(s, v);
    PastGrows(s, t, t.pending[|s.pending|]);
  }

  lemma ScriptMoves(s: State, v: Verdict)
    requires v in s.received
    ensures var t := Do(s, Script(v));
            && t.published == s.published && t.written == s.written && t.acked == s.acked
            && t.applied == s.applied + [v]
            && |t.pending| == |s.pending| + 1 && t.pending == s.pending + [t.pending[|s.pending|]]
            && t.pending[|s.pending|].msg == v
  {
  }

  lemma PastGrows(s: State, t: State, w: Write)
    requires PastScript(s) && w.msg in s.published
    requires t.published == s.published && t.written == s.written && t.acked == s.acked
    requires t.applied == s.applied + [w.msg] && t.pending == s.pending + [w]
    ensures PastScript(t)
  {
  }

  lemma ScriptReplyLostKeepsRecorded(s: State, v: Verdict)
    requires Sound(s) && v in s.received
    ensures Recorded(Do(s, ScriptReplyLost(v)))
  {
    RecordScript(s, v);
    var t := Do(s, ScriptReplyLost(v));
    assert t.metadata == ApplyScript(s, v).metadata && t.applied == s.applied + [v];
  }

  lemma WriteKeepsRecorded(s: State, a: Action)
    requires Sound(s) && Enabled(s, a)
    requires a.PerformWrite? || a.WriteReplyLost? || a.DropWrite?
    ensures Recorded(Do(s, a))
  {
    var i := if a.DropWrite? then a.i else 0;
    RecordWrite(s, i);
    WriteMoves(s, a, i);
    RecordedAfterWrite(s, Do(s, a), i);
  }

  lemma RecordedAfterWrite(s: State, t: State, i: nat)
    requires Recorded(s) && i < |s.pending|
    requires s.pending[i].msg in s.applied && s.pending[i].msg.userId in s.metadata
    requires t.published == s.published && t.acked == s.acked && t.applied == s.applied && t.metadata == s.metadata
    requires t.pending == s.pending[..i] + s.pending[i + 1..]
    requires t.leaderboard.Keys <= s.leaderboard.Keys + {s.pending[i].msg.userId}
    requires t.written <= s.written + multiset{s.pending[i].msg}
    ensures Recorded(t)
  {
  }

  lemma MoveKeepsRecorded(s: State, a: Action)
    requires Sound(s) && Enabled(s, a)
    requires a.Publish? || a.Receive? || a.FailBeforeScript? || a.Ack? || a.Crash?
    ensures Recorded(Do(s, a))
  {
  }

  lemma StepKeepsSound(s: State, a: Action)
    requires Sound(s) && Enabled(s, a)
    ensures Sound(Do(s, a))
  {
    StepKeepsOnePayload(s, a);
    if a.Script? {
      ScriptConserves(s, a.v);
      ScriptKeepsRecorded(s, a.v);
    } else if a.ScriptReplyLost? {
      ScriptReplyLostConserves(s, a.v);
      ScriptReplyLostKeepsRecorded(s, a.v);
    } else if a.PerformWrite? || a.WriteReplyLost? || a.DropWrite? {
      WriteConserves(s, a);
      WriteKeepsRecorded(s, a);
    } else {
      MoveConserves(s, a);
      MoveKeepsRecorded(s, a);
    }
  }

  lemma RecordScript(s: State, v: Verdict)
    requires Sound(s) && v in s.received
    ensures var t := ApplyScript(s, v);
            && t.metadata == Deliver(t.applied)
            && v.userId in t.metadata
            && (forall u :: u in s.metadata ==> u in t.metadata)
            && (forall u :: u in t.metadata && u != v.userId ==> u in s.metadata && t.metadata[u] == s.metadata[u])
            && v in s.published
  {
    DeliverAppend(s.applied, v);
    GoodUser(s, v);
  }

  lemma GoodUser(s: State, v: Verdict)
    ensures v.userId in UpdateUserState(s.metadata, v)
  {
  }

  lemma RecordWrite(s: State, i: nat)
    requires Sound(s) && i < |s.pending|
    ensures s.pending[i].msg in s.applied && s.pending[i].msg.userId in s.metadata
  {
    AppliedUserKnown(s.applied, s.pending[i].msg);
  }

  lemma {:induction false} PendingIsMessage(ws: seq<Write>, i: nat)
    requires i < |ws|
    ensures ws[i].msg in Messages(ws)
  {
    TakeMessage(ws, i);
  }

  lemma {:induction false} AppliedUserKnown(ds: seq<Verdict>, v: Verdict)
    requires v in ds
    ensures v.userId in Deliver(ds)
  {
    var init, last := ds[..|ds| - 1], ds[|ds| - 1];
    if v in init {
      AppliedUserKnown(init, v);
    } else {
      assert ds == init + [last];
      assert v == last;
    }
  }

  lemma MoveKeepsConverging(s: State, a: Action, u: string)
    requires Inv(s) && Enabled(s, a) && u in s.metadata
    requires a.Publish? || a.Receive? || a.FailBeforeScript? || a.Ack?
    ensures Converging(Do(s, a), u)
  {
    StillDue(s, Do(s, a), u);
  }

  lemma CrashKeepsConverging(s: State, u: string)
    requires Inv(s) && u in s.metadata
    ensures Converging(Do(s, Crash), u)
  {
    var t := Do(s, Crash);
    StillDue(s, t, u);
    if LastWrite(s.pending, u).Some? {
      var i := LastWriteHasMessage(s.pending, u);
      var v := s.pending[i].msg;
      PendingIsMessage(s.pending, i);
      assert v in t.ready + t.received && v in t.applied;
    }
  }

  lemma ScriptKeepsConverging(s: State, v: Verdict, u: string)
    requires Inv(s) && v in s.received && u in ApplyScript(s, v).metadata
    ensures Converging(Do(s, Script(v)), u)
  {
    var t := Do(s, Script(v));
    RecordScript(s, v);
    var w := Write(v, PackedScore(RecordOf(t.metadata, v.userId)));
    OneWrite(w, u);
    LastWriteSplit(s.pending, [w], u);
    if u != v.userId {
      StillDue(s, t, u);
    }
  }

  lemma ScriptReplyLostKeepsConverging(s: State, v: Verdict, u: string)
    requires Inv(s) && v in s.received && u in ApplyScript(s, v).metadata
    ensures Converging(Do(s, ScriptReplyLost(v)), u)
  {
    var t := Do(s, ScriptReplyLost(v));
    RecordScript(s, v);
    if u == v.userId {
      assert v in t.ready + t.received && v in t.applied;
    } else {
      StillDue(s, t, u);
    }
  }

  lemma WriteKeepsConverging(s: State, u: string)
    requires Inv(s) && s.pending != [] && u in s.metadata
    ensures Converging(Do(s, PerformWrite), u)
  {
    var t := Do(s, PerformWrite);
    assert t.pending == s.pending[1..];
    StillDue(s, t, u);
  }

  /** A queued recorded message of the user stays queued and recorded. */
  lemma StillDue(s: State, t: State, u: string)
    requires forall v :: v in s.ready + s.received && v.userId == u && v in s.applied ==> v in t.ready + t.received
    requires forall v :: v in s.applied ==> v in t.applied
    ensures RedeliveryDue(s, u) ==> RedeliveryDue(t, u)
  {
    if RedeliveryDue(s, u) {
      var v :| v in s.ready + s.received && v.userId == u && v in s.applied;
      assert v in t.ready + t.received && v in t.applied;
    }
  }

  /** A write that went back to the queue leaves its own user waiting and nobody else changed. */
  lemma DroppedIsDue(s: State, t: State, i: nat, u: string)
    requires Inv(s) && i < |s.pending| && u in s.metadata
    requires var m := s.pending[i].msg;
             && t.pending == s.pending[..i] + s.pending[i + 1..]
             && t.ready == s.ready + multiset{m} && t.received == s.received
             && t.applied == s.applied && t.metadata == s.metadata
             && (forall x :: x != m.userId && x in s.leaderboard ==> x in t.leaderboard && t.leaderboard[x] == s.leaderboard[x])
    ensures Converging(t, u)
  {
    var m := s.pending[i].msg;
    StillDue(s, t, u);
    if m.userId == u {
      assert m in t.ready + t.received && m in t.applied;
    } else {
      TakeWrite(s.pending, i, u);
    }
  }

  lemma ReturnedKeepsConverging(s: State, a: Action, u: string)
    requires Inv(s) && Enabled(s, a) && u in Do(s, a).metadata
    requires a.WriteReplyLost? || a.DropWrite?
    ensures Converging(Do(s, a), u)
  {
    var i := if a.DropWrite? then a.i else 0;
    RecordWrite(s, i);
    DroppedIsDue(s, Do(s, a), i, u);
  }

  lemma StepKeepsConverging(s: State, a: Action, u: string)
    requires Inv(s) && Enabled(s, a) && u in Do(s, a).metadata
    ensures Converging(Do(s, a), u)
  {
    if a.Script? {
      ScriptKeepsConverging(s, a.v, u);
    } else if a.ScriptReplyLost? {
      ScriptReplyLostKeepsConverging(s, a.v, u);
    } else if a.PerformWrite? {
      WriteKeepsConverging(s, u);
    } else if a.WriteReplyLost? || a.DropWrite? {
      ReturnedKeepsConverging(s, a, u);
    } else if a.Crash? {
      CrashKeepsConverging(s, u);
    } else {
      MoveKeepsConverging(s, a, u);
    }
  }

  lemma StepKeepsInv(s: State, a: Action)
    requires Inv(s) && Enabled(s, a)
    ensures Inv(Do(s, a))
  {
    StepKeepsSound(s, a);
    forall u | u in Do(s, a).metadata ensures Converging(Do(s, a), u) {
      StepKeepsConverging(s, a, u);
    }
  }

  /** In every state of every run: no message is lost or duplicated, no acked verdict is missing from
      the records, and every user's sorted-set score is right or about to be corrected. */
  lemma {:induction false} RunKeepsInv(ss: seq<State>, i: nat)
    requires IsRun(ss) && i < |ss|
    ensures Inv(ss[i])
  {
    if i > 0 {
      RunKeepsInv(ss, i - 1);
      var s, t := ss[i - 1], ss[i - 1 + 1];
      assert Next(s, t);
      var a :| Enabled(s, a) && t == Do(s, a);
      StepKeepsInv(s, a);
    }
  }

  // ---------------------------------------------------------------- quiescence

  ghost predicate Quiescent(s: State) {
    s.ready == multiset{} && s.received == multiset{} && s.pending == [] && s.written == multiset{}
  }

  /** Once everything is acked, the sorted set is exactly the score of every record. */
  lemma QuiescentLeaderboard(ss: seq<State>, i: nat)
    requires IsRun(ss) && i < |ss| && Quiescent(ss[i])
    ensures ss[i].leaderboard == ScoreTable(ss[i].metadata)
    ensures forall v :: v in ss[i].published <==> v in ss[i].applied
  {
    RunKeepsInv(ss, i);
    var s := ss[i];
    assert s.published == s.acked;
    forall u | u in s.metadata ensures u in s.leaderboard && s.leaderboard[u] == PackedScore(s.metadata[u]) {
      assert Converging(s, u);
    }
  }

  /** The live board agrees with the batch: whatever crashes, redeliveries, repeats and reorderings
      the run saw, at quiescence every user's sorted-set score is the score of that user's rows in the
      batch grouping of the published verdicts, when no charged verdict ties with an earliest AC. */
  lemma QuiescentLeaderboardIsBatch(ss: seq<State>, i: nat, rows: seq<Verdict>)
    requires IsRun(ss) && i < |ss| && Quiescent(ss[i])
    requires NoDuplicates(rows) && NoTies(rows)
    requires forall v :: v in rows <==> v in ss[i].published
    ensures ss[i].leaderboard == ScoreTable(Group(rows))
  {
    var s := ss[i];
    RunKeepsInv(ss, i);
    QuiescentLeaderboard(ss, i);
    DedupElements(rows);
    DeliverIsGroupOfDistinct(rows);
    forall u
      ensures u in Group(rows) <==> u in s.metadata
      ensures PackedScore(RecordOf(Group(rows), u)) == PackedScore(RecordOf(s.metadata, u))
    {
      DeliveryOrderIrrelevant(rows, s.applied, u);
    }
    forall u | u in Group(rows) ensures PackedScore(Group(rows)[u]) == s.leaderboard[u] {
      assert RecordOf(Group(rows), u) == Group(rows)[u];
    }
  }

  // ---------------------------------------------------------------- why writes must keep script order

  function AckAll(s: State): State {
    s.(written := multiset{}, acked := s.acked + s.written)
  }

  /** Two writes of one user performed in the wrong order, answered and acked, leave a quiescent state
      with a wrong score, unless they carry the same one. */
  lemma SwappedWrites(s: State)
    requires Inv(s) && s.ready == multiset{} && s.received == multiset{}
    requires |s.pending| == 2 && s.pending[0].msg.userId == s.pending[1].msg.userId
    ensures var u, t := s.pending[0].msg.userId, AckAll(PerformAt(PerformAt(s, 1), 0));
            && Quiescent(t) && Conserved(t) && t.metadata == s.metadata
            && u in t.leaderboard && u in t.metadata
            && (t.leaderboard[u] == PackedScore(t.metadata[u]) <==> s.pending[0].score == s.pending[1].score)
  {
    var u := s.pending[0].msg.userId;
    RecordWrite(s, 0);
    assert Converging(s, u);
    var a, b := s.pending[0], s.pending[1];
    assert s.pending == [a] + [b];
    OneWrite(a, u);
    OneWrite(b, u);
    LastWriteSplit([a], [b], u);
    MessagesSplit([a], [b]);
    assert PerformAt(s, 1).pending == [a];
    assert !RedeliveryDue(s, u);
  }

  lemma RunAppend(ss: seq<State>, a: Action) returns (ts: seq<State>)
    requires IsRun(ss) && Enabled(ss[|ss| - 1], a)
    ensures IsRun(ts) && ts[|ts| - 1] == Do(ss[|ss| - 1], a)
  {
    ts := ss + [Do(ss[|ss| - 1], a)];
    forall i | 0 <= i < |ts| - 1 ensures Next(ts[i], ts[i + 1]) {
      if i < |ss| - 1 {
        assert Next(ss[i], ss[i + 1]);
      }
    }
  }

  lemma BothReceived(v: Verdict, w: Verdict) returns (ss: seq<State>)
    requires v.submissionId != w.submissionId
    ensures IsRun(ss)
    ensures ss[|ss| - 1] == INITIAL.(published := multiset{v, w}, received := multiset{v, w})
  {
    ss := [INITIAL];
    ss := RunAppend(ss, Publish(v));
    ss := RunAppend(ss, Publish(w));
    ss := RunAppend(ss, Receive(v));
    ss := RunAppend(ss, Receive(w));
    var s := ss[|ss| - 1];
    assert s.published == multiset{v, w} && s.ready == multiset{} && s.received == multiset{v, w};
  }

  lemma ScriptSends(s: State, v: Verdict)
    requires v in s.received
    ensures var t, m := Do(s, Script(v)), UpdateUserState(s.metadata, v);
            && t.ready == s.ready && t.received == s.received - multiset{v} && t.metadata == m
            && t.pending == s.pending + [Write(v, PackedScore(RecordOf(m, v.userId)))]
  {
  }

  /** Both scripts of two different verdicts of one user applied, no write sent yet. */
  lemma BothScripted(v: Verdict, w: Verdict) returns (ss: seq<State>)
    requires v.submissionId != w.submissionId
    ensures IsRun(ss)
    ensures var s := ss[|ss| - 1];
            var m1 := UpdateUserState(map[], v);
            var m2 := UpdateUserState(m1, w);
            && s.ready == multiset{} && s.received == multiset{}
            && s.pending == [Write(v, PackedScore(RecordOf(m1, v.userId))), Write(w, PackedScore(RecordOf(m2, w.userId)))]
  {
    ss := BothReceived(v, w);
    var s := ss[|ss| - 1];
    ScriptSends(s, v);
    ss := RunAppend(ss, Script(v));
    var t := Do(s, Script(v));
    assert t.received == multiset{w};
    ScriptSends(t, w);
    ss := RunAppend(ss, Script(w));
  }

  /** Such a state is reachable: an AC at 60 and a charged attempt at 30 of the same problem. */
  lemma SwappableRun() returns (ss: seq<State>)
    ensures IsRun(ss)
    ensures var s := ss[|ss| - 1];
            && s.ready == multiset{} && s.received == multiset{} && |s.pending| == 2
            && s.pending[0].msg.userId == s.pending[1].msg.userId
            && s.pending[0].score != s.pending[1].score
  {
    var v, w := Verdict("1", "u", "A", "AC", 60), Verdict("2", "u", "A", "WA", 30);
    assert w.submissionId[0] != v.submissionId[0] && "WA"[0] != "AC"[0];
    ss := BothScripted(v, w);
    ScoresDiffer(ToSubmission(v), ToSubmission(w));
  }

  /** A charged attempt before an AC changes the score. */
  lemma ScoresDiffer(x: Submission, y: Submission)
    requires IsAc(x) && IsWrong(y) && y.relativeSubmittedAt < x.relativeSubmittedAt
    ensures var one := AddSubmission(UserRecord(map[], []), "A", x);
            PackedScore(AddSubmission(one, "A", y)) != PackedScore(one)
  {
    var one := AddSubmission(UserRecord(map[], []), "A", x);
    ScoreAfterOneMore(one, "A", y);
    assert ListOf(one, "A") == [] + [x];
    ProblemResultAppend([], x);
  }
}
