/** The caller's side of the protocol as code: retries, and the loops of ending a transaction. */
module Calls {
  import opened Records
  import opened Transactions
  import opened Groups
  import opened Shards
  import opened Broker

  // ---------------------------------------------------------------- one exchange

  /** How a shard meets the attempts of a caller: whether its mailbox takes the command at the n-th attempt to send, and
      what the reply channel holds at the n-th attempt to receive. */
  datatype Line = Line(accepts: nat -> bool, holds: nat -> Option<Reply>)

  /** At least one attempt is made. */
  function Attempts(maxRetries: nat): nat {
    if maxRetries == 0 then 1 else maxRetries
  }

  /** The first of the attempts from `i` on that is ready. */
  function FirstFrom(ready: nat -> bool, i: nat, attempts: nat): (first: Option<nat>)
    requires i <= attempts
    ensures first.Some? ==> i <= first.value < attempts && ready(first.value)
    ensures first.Some? ==> forall j: nat :: i <= j < first.value ==> !ready(j)
    ensures first.None? ==> forall j: nat :: i <= j < attempts ==> !ready(j)
    decreases attempts - i
  {
    if i == attempts then None else if ready(i) then Some(i) else FirstFrom(ready, i + 1, attempts)
  }

  /** The retry loop around a send and around a receive. */
  method FirstReady(ready: nat -> bool, maxRetries: nat) returns (attempt: Option<nat>)
    ensures attempt == FirstFrom(ready, 0, Attempts(maxRetries))
  {
    var i: nat := 0;
    while i < Attempts(maxRetries)
      invariant i <= Attempts(maxRetries)
      invariant FirstFrom(ready, 0, Attempts(maxRetries)) == FirstFrom(ready, i, Attempts(maxRetries))
    {
      if ready(i) {
        return Some(i);
      }
      i := i + 1;
    }
    attempt := None;
  }

  function Arrived(line: Line): nat -> bool {
    (i: nat) => line.holds(i).Some?
  }

  /** What an exchange brings: nothing if the mailbox takes the command at none of the attempts, nothing if no reply is
      there at any of them, and otherwise the first reply the channel holds. */
  function Brought(line: Line, maxRetries: nat): Result<Reply, Outcome> {
    if FirstFrom(line.accepts, 0, Attempts(maxRetries)).None? then Err(MailboxUnavailable)
    else
      match FirstFrom(Arrived(line), 0, Attempts(maxRetries))
      case None => Err(ReplyTimeout)
      case Some(i) => Ok(line.holds(i).value)
  }

  /** Sends a command and waits for its reply. */
  method Ask(line: Line, maxRetries: nat) returns (r: Result<Reply, Outcome>)
    ensures r == Brought(line, maxRetries)
    ensures r.Ok? <==>
      && (exists i: nat :: i < Attempts(maxRetries) && line.accepts(i))
      && (exists i: nat :: i < Attempts(maxRetries) && Arrived(line)(i))
  {
    var sent := FirstReady(line.accepts, maxRetries);
    if sent.None? {
      return Err(MailboxUnavailable);
    }
    var received := FirstReady(Arrived(line), maxRetries);
    if received.None? {
      return Err(ReplyTimeout);
    }
    r := Ok(line.holds(received.value).value);
  }

  // ---------------------------------------------------------------- a call against its channels

  datatype Exchange = Exchange(target: nat, command: Command)

  /** What the n-th exchange of a call brings: a reply, or the outcome of giving up on it. */
  type Channel = nat -> Result<Reply, Outcome>

  /** The exchanges of a call that makes this many attempts at each. */
  function Over(lines: nat -> Line, maxRetries: nat): Channel {
    (n: nat) => Brought(lines(n), maxRetries)
  }

  /** Exchanges a stage can still lead to. */
  function Left(stage: Stage): int {
    match stage
    case Resolving(c, i) => |c.partitions| - i + |c.offsets| + 1
    case Committing(c, i) => |c.offsets| - i
    case _ => 0
  }

  /** What a call sends, and how it ends, driven by the stages alone. */
  function RunCall(config: Config, call: Call, stage: Stage, channel: Channel, n: nat): (Outcome, seq<Exchange>)
    requires StageFits(call, stage)
    decreases if stage.First? then 1 else 0, Left(stage)
  {
    var sent := Exchange(TargetOf(config, call, stage), CommandOf(call, stage));
    match channel(n)
    case Err(outcome) => (outcome, [sent])
    case Ok(reply) =>
      match AfterReply(config, call, stage, reply)
      case Finish(outcome) => (outcome, [sent])
      case Continue(later) =>
        var rest := RunCall(config, call, later, channel, n + 1);
        (rest.0, [sent] + rest.1)
  }

  /** The same from a decision on, with what was sent before in front. */
  ghost function Onward(config: Config, call: Call, sent: seq<Exchange>, next: Next, channel: Channel)
    : (Outcome, seq<Exchange>)
    requires next.Continue? ==> StageFits(call, next.stage)
  {
    match next
    case Finish(outcome) => (outcome, sent)
    case Continue(stage) =>
      var rest := RunCall(config, call, stage, channel, |sent|);
      (rest.0, sent + rest.1)
  }

  lemma OneExchange(config: Config, call: Call, sent: seq<Exchange>, stage: Stage, channel: Channel)
    requires StageFits(call, stage)
    ensures var e := Exchange(TargetOf(config, call, stage), CommandOf(call, stage));
            var whole := Onward(config, call, sent, Continue(stage), channel);
            match channel(|sent|)
            case Err(outcome) => whole == (outcome, sent + [e])
            case Ok(reply) =>
              && (AfterReply(config, call, stage, reply).Continue? ==>
                    StageFits(call, AfterReply(config, call, stage, reply).stage))
              && whole == Onward(config, call, sent + [e], AfterReply(config, call, stage, reply), channel)
  {
    var e := Exchange(TargetOf(config, call, stage), CommandOf(call, stage));
    if channel(|sent|).Ok? {
      var next := AfterReply(config, call, stage, channel(|sent|).value);
      if next.Continue? {
        ConcatAssociative(sent, [e], RunCall(config, call, next.stage, channel, |sent| + 1).1);
      }
    }
  }

  /** Validate at the coordinator, then check the partition, then append at its shard. */
  method ProduceTransactionally(config: Config, tid: Bytes, producer: ProducerIdentity, tp: TopicPartition,
                                records: seq<RecordData>, lines: nat -> Line, maxRetries: nat)
    returns (outcome: Outcome, sent: seq<Exchange>)
    ensures (outcome, sent)
            == RunCall(config, ProduceTransactionalCall(tid, producer, tp, records), First, Over(lines, maxRetries), 0)
  {
    sent := [Exchange(0, Coordinate(OfTransaction(ValidateProduce(tid, producer, tp))))];
    var validated := Ask(lines(0), maxRetries);
    if validated.Err? {
      return validated.error, sent;
    }
    if !validated.value.Transacted? {
      return UnexpectedReply, sent;
    }
    if validated.value.answer.Err? {
      return Refused(validated.value.answer.error), sent;
    }
    if !validated.value.answer.value.Applied? {
      return UnexpectedReply, sent;
    }
    var refused := CheckPartition(config.settings.catalog, tp);
    if refused.Some? {
      return Rejected(refused.value), sent;
    }
    sent := sent + [Exchange(config.place(tp), ProduceTransactional(tp, records, producer.id))];
    var appended := Ask(lines(1), maxRetries);
    if appended.Err? {
      return appended.error, sent;
    }
    outcome := if appended.value.Produced? then Succeeded(appended.value)
               else if appended.value.Failed? then Rejected(appended.value.error) else UnexpectedReply;
  }

  /** Resolves the partitions one after the other; `None` once all are resolved. */
  method ResolvePartitions(config: Config, call: Call, c: Completion, before: seq<Exchange>, lines: nat -> Line,
                           maxRetries: nat)
    returns (stopped: Option<Outcome>, sent: seq<Exchange>)
    requires call.EndCall?
    ensures var whole := Onward(config, call, before, ResolveNext(c, 0, call.commit), Over(lines, maxRetries));
            if stopped.Some? then whole == (stopped.value, sent)
            else whole == Onward(config, call, sent, ResolveNext(c, |c.partitions|, call.commit),
                                 Over(lines, maxRetries))
  {
    sent := before;
    var i := 0;
    while i < |c.partitions|
      invariant 0 <= i <= |c.partitions|
      invariant Onward(config, call, before, ResolveNext(c, 0, call.commit), Over(lines, maxRetries))
                == Onward(config, call, sent, ResolveNext(c, i, call.commit), Over(lines, maxRetries))
    {
      OneExchange(config, call, sent, Resolving(c, i), Over(lines, maxRetries));
      var reply := Ask(lines(|sent|), maxRetries);
      sent := sent + [Exchange(config.place(c.partitions[i]), ResolveTransaction(call.producer.id, call.commit))];
      if reply.Err? {
        return Some(reply.error), sent;
      }
      if !reply.value.Resolved? {
        return Some(UnexpectedReply), sent;
      }
      i := i + 1;
    }
    stopped := None;
  }

  /** Commits the offsets one after the other; the first refusal ends the call. */
  method CommitOffsets(config: Config, call: Call, c: Completion, before: seq<Exchange>, lines: nat -> Line,
                       maxRetries: nat)
    returns (outcome: Outcome, sent: seq<Exchange>)
    requires call.EndCall? && call.commit
    ensures (outcome, sent) == Onward(config, call, before, CommitNext(c, 0), Over(lines, maxRetries))
  {
    sent := before;
    var i := 0;
    while i < |c.offsets|
      invariant 0 <= i <= |c.offsets|
      invariant Onward(config, call, before, CommitNext(c, 0), Over(lines, maxRetries))
                == Onward(config, call, sent, CommitNext(c, i), Over(lines, maxRetries))
    {
      OneExchange(config, call, sent, Committing(c, i), Over(lines, maxRetries));
      var o := c.offsets[i];
      var reply := Ask(lines(|sent|), maxRetries);
      var request := CommitOffset(o.groupId, o.generation, (o.topic, o.partition), o.offset);
      sent := sent + [Exchange(0, Coordinate(OfGroup(request)))];
      if reply.Err? {
        return reply.error, sent;
      }
      if !reply.value.Grouped? {
        return UnexpectedReply, sent;
      }
      if reply.value.groupAnswer.Err? {
        return Refused(reply.value.groupAnswer.error), sent;
      }
      if !reply.value.groupAnswer.value.Done? {
        return UnexpectedReply, sent;
      }
      i := i + 1;
    }
    outcome := Ended;
  }

  /** End at the coordinator, resolve every partition it hands over, and after a commit every offset. */
  method EndTransactionally(config: Config, tid: Bytes, producer: ProducerIdentity, commit: bool, lines: nat -> Line,
                            maxRetries: nat)
    returns (outcome: Outcome, sent: seq<Exchange>)
    ensures (outcome, sent) == RunCall(config, EndCall(tid, producer, commit), First, Over(lines, maxRetries), 0)
  {
    ghost var call := EndCall(tid, producer, commit);
    OneExchange(config, call, [], First, Over(lines, maxRetries));
    ghost var whole := RunCall(config, call, First, Over(lines, maxRetries), 0);
    assert [] + whole.1 == whole.1;
    sent := [Exchange(0, Coordinate(OfTransaction(EndTransaction(tid, producer, commit))))];
    assert [] + sent == sent;
    var ended := Ask(lines(0), maxRetries);
    if ended.Err? {
      return ended.error, sent;
    }
    if !ended.value.Transacted? {
      return UnexpectedReply, sent;
    }
    if ended.value.answer.Err? {
      return Refused(ended.value.answer.error), sent;
    }
    if !ended.value.answer.value.Completed? {
      return UnexpectedReply, sent;
    }
    var completion := ended.value.answer.value.completion;
    var stopped;
    stopped, sent := ResolvePartitions(config, EndCall(tid, producer, commit), completion, sent, lines, maxRetries);
    if stopped.Some? {
      return stopped.value, sent;
    }
    if commit {
      outcome, sent := CommitOffsets(config, EndCall(tid, producer, commit), completion, sent, lines, maxRetries);
    } else {
      outcome := Ended;
    }
  }
}
