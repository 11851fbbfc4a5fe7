/** The consumer's callback, cut where it waits for Redis: leaderboard-service/src/tasks/rabbitmq.task.ts
    around leaderboard-service/src/services/redis.service.ts.

    The callback awaits the script and then the sorted-set write.  While it waits, callbacks of other
    messages go on, so each part here starts from any state of the protocol, with any messages received
    and any writes in flight, and takes it to where the protocol's own steps lead. */
module LiveConsumer {
  import opened Options
  import opened Scoring
  import opened LiveStore
  import opened LiveProtocol

  /** What becomes of a call to Redis: it is not performed, or its reply is lost, or it is answered.
      The first two throw. */
  datatype Call = NotPerformed | Unanswered | Answered

  ghost predicate Shows(s: State, redis: RedisStore)
    reads redis
  {
    s.metadata == redis.metadata && s.leaderboard == redis.leaderboard
  }

  ghost function ScriptStep(v: Verdict, call: Call): Action {
    match call
    case NotPerformed => FailBeforeScript(v)
    case Unanswered => ScriptReplyLost(v)
    case Answered => Script(v)
  }

  /** Up to the first reply: runs the script on a received message.  An answer makes the callback rescore
      and send a write, the last of those in flight; a failure nacks the message back onto the queue. */
  method CallScript(redis: RedisStore, v: Verdict, call: Call, ghost s: State)
    returns (write: Option<Write>, ghost t: State)
    requires Shows(s, redis) && v in s.received
    modifies redis
    ensures t == Do(s, ScriptStep(v, call)) && Shows(t, redis)
    ensures write.Some? <==> call == Answered
    ensures t.pending == if write.Some? then s.pending + [write.value] else s.pending
    ensures t.ready == if write.Some? then s.ready else s.ready + multiset{v}
  {
    t := Do(s, ScriptStep(v, call));
    write := None;
    if call == NotPerformed {
      return;
    }
    var updated := redis.EvalUpdateUserState(v);
    if call == Answered {
      var scores := ComputeUserScores(updated);
      write := Some(Write(v, scores.score));
    }
  }

  /** From a write in flight to the end of its callback: a write that is performed is the first in
      flight, as one connection keeps their order.  An answer acks the message; a failure nacks it. */
  method CallWrite(redis: RedisStore, i: nat, write: Write, call: Call, ghost s: State)
    returns (acked: bool, ghost t: State)
    requires Shows(s, redis) && i < |s.pending| && write == s.pending[i]
    requires call != NotPerformed ==> i == 0
    modifies redis
    ensures acked <==> call == Answered
    ensures call == NotPerformed ==> t == Do(s, DropWrite(i))
    ensures call == Unanswered ==> t == Do(s, WriteReplyLost)
    ensures call == Answered ==> Enabled(Do(s, PerformWrite), Ack(write.msg)) && t == Do(Do(s, PerformWrite), Ack(write.msg))
    ensures Shows(t, redis)
    ensures t.ready == (if acked then s.ready else s.ready + multiset{write.msg})
    ensures t.acked == (if acked then s.acked + multiset{write.msg} else s.acked)
  {
    if call == NotPerformed {
      return false, Do(s, DropWrite(i));
    }
    redis.leaderboard := redis.leaderboard[write.msg.userId := write.score];
    if call == Unanswered {
      return false, Do(s, WriteReplyLost);
    }
    acked, t := true, Do(Do(s, PerformWrite), Ack(write.msg));
  }
}
