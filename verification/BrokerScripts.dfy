/** Ending a transaction carries out its whole script, in order, before it returns Ok. */
module BrokerScripts {
  import opened Records
  import opened Transactions
  import opened Groups
  import opened Shards
  import opened Broker
  import opened BrokerReplies
  import BrokerOrder
  import TransactionHistory

  function OffsetCommand(o: TransactionOffset): Command {
    Coordinate(OfGroup(CommitOffset(o.groupId, o.generation, (o.topic, o.partition), o.offset)))
  }

  /** What has to happen for a transaction to be ended: the coordinator ends it, every partition's shard resolves it,
      and after a commit every enlisted offset is committed. */
  function Script(config: Config, call: Call, c: Completion): seq<Handled>
    requires call.EndCall?
  {
    [Handled(0, CommandOf(call, First), Transacted(Ok(Completed(c))))]
    + seq(|c.partitions|, i requires 0 <= i < |c.partitions| =>
            Handled(config.place(c.partitions[i]), ResolveTransaction(call.producer.id, call.commit), Resolved))
    + if call.commit
      then seq(|c.offsets|,
               i requires 0 <= i < |c.offsets| => Handled(0, OffsetCommand(c.offsets[i]), Grouped(Ok(Done))))
      else []
  }

  /** The first `n` entries of a script were handled in this order, at positions from `since` on and below `bound`. */
  ghost predicate Within(script: seq<Handled>, n: nat, handled: seq<Handled>, since: nat, bound: nat)
    requires n <= |script| && bound <= |handled|
  {
    if n == 0 then since <= bound
    else exists p: nat :: p < bound && handled[p] == script[n - 1] && Within(script, n - 1, handled, since, p)
  }

  lemma {:induction false} WithinLater(script: seq<Handled>, n: nat, handled: seq<Handled>, since: nat, bound: nat,
                                       later: nat)
    requires n <= |script| && bound <= later <= |handled| && Within(script, n, handled, since, bound)
    ensures Within(script, n, handled, since, later)
  {
  }

  lemma {:induction false} WithinGrows(script: seq<Handled>, n: nat, handled: seq<Handled>, h: Handled, since: nat,
                                       bound: nat)
    requires n <= |script| && bound <= |handled| && Within(script, n, handled, since, bound)
    ensures Within(script, n, handled + [h], since, bound)
  {
    if n > 0 {
      var p: nat :| p < bound && handled[p] == script[n - 1] && Within(script, n - 1, handled, since, p);
      WithinGrows(script, n - 1, handled, h, since, p);
      assert (handled + [h])[p] == script[n - 1];
    }
  }

  /** Which script entry the message of a stage is. */
  function EntryOf(stage: Stage): nat {
    match stage
    case Resolving(c, i) => 1 + i
    case Committing(c, i) => 1 + |c.partitions| + i
    case _ => 0
  }

  function Success(stage: Stage, c: Completion): Reply {
    match stage
    case First => Transacted(Ok(Completed(c)))
    case Append => Stopped
    case Resolving(_, _) => Resolved
    case Committing(_, _) => Grouped(Ok(Done))
  }

  predicate Ends(stage: Stage, c: Completion) {
    stage.First? || ((stage.Resolving? || stage.Committing?) && stage.completion == c)
  }

  lemma EntryIsMessage(config: Config, call: Call, stage: Stage, c: Completion)
    requires call.EndCall? && StageFits(call, stage) && Ends(stage, c)
    ensures EntryOf(stage) < |Script(config, call, c)|
    ensures Script(config, call, c)[EntryOf(stage)]
            == Handled(TargetOf(config, call, stage), CommandOf(call, stage), Success(stage, c))
  {
  }

  /** Whatever lets a caller go on or return Ok was the successful reply to its entry, and the next entry is due. */
  lemma OnlySuccessGoesOn(config: Config, call: Call, stage: Stage, reply: Reply)
    requires call.EndCall? && StageFits(call, stage) && !stage.Append?
    ensures var next := AfterReply(config, call, stage, reply);
            next.Continue? || next.outcome.Ended? ==>
              exists c :: Ends(stage, c) && reply == Success(stage, c) && FollowsUp(config, call, stage, c, next)
  {
    var next := AfterReply(config, call, stage, reply);
    if next.Continue? || next.outcome.Ended? {
      var c := if stage.First? then reply.answer.value.completion else stage.completion;
      assert FollowsUp(config, call, stage, c, next);
    }
  }

  predicate FollowsUp(config: Config, call: Call, stage: Stage, c: Completion, next: Next)
    requires call.EndCall?
  {
    match next
    case Continue(later) => !later.First? && Ends(later, c) && EntryOf(later) == EntryOf(stage) + 1
    case Finish(outcome) => EntryOf(stage) + 1 == |Script(config, call, c)|
  }

  // ---------------------------------------------------------------- over runs

  /** A caller that ends a transaction has carried out its script up to the message that is due. */
  ghost predicate ScriptSound(config: Config, handled: seq<Handled>, c: Client) {
    !c.Idle? && c.call.EndCall? && (c.stage.Resolving? || c.stage.Committing?) && StageFits(c.call, c.stage) ==>
      var script, n := Script(config, c.call, c.stage.completion), EntryOf(c.stage);
      && n <= |script|
      && (c.Replied? ==> c.position <= |handled|)
      && Within(script, n, handled, c.since, if c.Replied? then c.position else |handled|)
  }

  ghost predicate CarriedOut(config: Config, handled: seq<Handled>, f: Finished) {
    f.call.EndCall? && f.until <= |handled|
    && exists c :: Within(Script(config, f.call, c), |Script(config, f.call, c)|, handled, f.since, f.until)
  }

  /** The reply that made a call return was the one to the message of this stage, and everything the script has before
      that message was carried out. */
  ghost predicate ConcludedAt(config: Config, handled: seq<Handled>, f: Finished, stage: Stage)
    requires f.call.EndCall? && f.position.Some?
  {
    var p := f.position.value;
    && f.since <= p < f.until <= |handled|
    && StageFits(f.call, stage) && !stage.Append?
    && handled[p].at == TargetOf(config, f.call, stage) && handled[p].command == CommandOf(f.call, stage)
    && AfterReply(config, f.call, stage, handled[p].reply) == Finish(f.outcome)
    && (!stage.First? ==>
          && EntryOf(stage) <= |Script(config, f.call, stage.completion)|
          && Within(Script(config, f.call, stage.completion), EntryOf(stage), handled, f.since, p))
  }

  /** A call that ends a transaction and was not given up. */
  predicate Answered(f: Finished) {
    f.call.EndCall? && f.position.Some?
  }

  ghost predicate Concluded(config: Config, handled: seq<Handled>, f: Finished) {
    Answered(f) ==> exists stage :: ConcludedAt(config, handled, f, stage)
  }

  ghost predicate Scripted(config: Config, state: State) {
    && (forall k :: 0 <= k < |state.clients| ==> ScriptSound(config, state.handled, state.clients[k]))
    && (forall i :: 0 <= i < |state.finished| && state.finished[i].outcome.Ended? ==>
          CarriedOut(config, state.handled, state.finished[i]))
    && (forall i :: 0 <= i < |state.finished| ==> Concluded(config, state.handled, state.finished[i]))
  }

  lemma ScriptSoundGrows(config: Config, handled: seq<Handled>, h: Handled, c: Client)
    requires ScriptSound(config, handled, c)
    ensures ScriptSound(config, handled + [h], c)
  {
    if !c.Idle? && c.call.EndCall? && (c.stage.Resolving? || c.stage.Committing?) && StageFits(c.call, c.stage) {
      var script, n := Script(config, c.call, c.stage.completion), EntryOf(c.stage);
      var bound := if c.Replied? then c.position else |handled|;
      WithinGrows(script, n, handled, h, c.since, bound);
      if !c.Replied? {
        WithinLater(script, n, handled + [h], c.since, bound, bound + 1);
      }
    }
  }

  lemma RepliedScriptSound(config: Config, handled: seq<Handled>, h: Handled, c: Client, reply: Reply)
    requires ScriptSound(config, handled, c) && c.Waiting?
    ensures ScriptSound(config, handled + [h], Replied(c.call, c.stage, c.since, |handled|, reply))
  {
    if c.call.EndCall? && (c.stage.Resolving? || c.stage.Committing?) && StageFits(c.call, c.stage) {
      WithinGrows(Script(config, c.call, c.stage.completion), EntryOf(c.stage), handled, h, c.since, |handled|);
    }
  }

  lemma CarriedOutGrows(config: Config, handled: seq<Handled>, h: Handled, f: Finished)
    requires CarriedOut(config, handled, f)
    ensures CarriedOut(config, handled + [h], f)
  {
    var c :| Within(Script(config, f.call, c), |Script(config, f.call, c)|, handled, f.since, f.until);
    WithinGrows(Script(config, f.call, c), |Script(config, f.call, c)|, handled, h, f.since, f.until);
  }

  lemma ConcludedGrows(config: Config, handled: seq<Handled>, h: Handled, f: Finished)
    requires Concluded(config, handled, f)
    ensures Concluded(config, handled + [h], f)
  {
    if Answered(f) {
      var stage :| ConcludedAt(config, handled, f, stage);
      if !stage.First? {
        WithinGrows(Script(config, f.call, stage.completion), EntryOf(stage), handled, h, f.since, f.position.value);
      }
      assert ConcludedAt(config, handled + [h], f, stage);
    }
  }

  /** A successful reply carries the script one entry further. */
  lemma OneEntryFurther(config: Config, handled: seq<Handled>, client: Client, c: Completion, nextChannel: nat)
    requires client.Replied? && client.call.EndCall? && Ends(client.stage, c)
    requires ClientSound(config, client, handled, nextChannel) && ScriptSound(config, handled, client)
    requires client.reply == Success(client.stage, c)
    ensures EntryOf(client.stage) < |Script(config, client.call, c)|
    ensures Within(Script(config, client.call, c), EntryOf(client.stage) + 1, handled, client.since, |handled|)
  {
    EntryIsMessage(config, client.call, client.stage, c);
    assert handled[client.position] == Script(config, client.call, c)[EntryOf(client.stage)];
    assert Within(Script(config, client.call, c), EntryOf(client.stage), handled, client.since, client.position);
  }

  lemma ReceivedScript(config: Config, handled: seq<Handled>, client: Client, nextChannel: nat)
    requires client.Replied? && ClientSound(config, client, handled, nextChannel)
             && ScriptSound(config, handled, client)
    ensures var next := AfterReply(config, client.call, client.stage, client.reply);
            && (next.Continue? ==> ScriptSound(config, handled, Ready(client.call, next.stage, client.since)))
            && (next.Finish? ==>
                  var f := Finished(client.call, client.since, next.outcome, Some(client.position), |handled|);
                  (next.outcome.Ended? ==> CarriedOut(config, handled, f)) && Concluded(config, handled, f))
  {
    var next := AfterReply(config, client.call, client.stage, client.reply);
    if client.call.EndCall? && next.Finish? {
      var f := Finished(client.call, client.since, next.outcome, Some(client.position), |handled|);
      assert ConcludedAt(config, handled, f, client.stage);
    }
    if client.call.EndCall? && (next.Continue? || next.outcome.Ended?) {
      OnlySuccessGoesOn(config, client.call, client.stage, client.reply);
      var c :| Ends(client.stage, c) && client.reply == Success(client.stage, c)
        && FollowsUp(config, client.call, client.stage, c, next);
      OneEntryFurther(config, handled, client, c, nextChannel);
    }
  }

  lemma ReceiveKeepsScripted(config: Config, state: State, k: nat)
    requires Scripted(config, state) && Sound(config, state) && Enabled(config, state, Receive(k))
    ensures Scripted(config, ApplyReceive(config, state, k))
  {
    assert ClientSound(config, state.clients[k], state.handled, state.nextChannel);
    ReceivedScript(config, state.handled, state.clients[k], state.nextChannel);
  }

  lemma HandlingKeepsScripted(config: Config, state: State, s: nat)
    requires Scripted(config, state) && Enabled(config, state, Handling(s))
    ensures Scripted(config, ApplyHandling(config, state, s))
  {
    var next := ApplyHandling(config, state, s);
    var h, m := next.handled[|state.handled|], state.nodes[s].mailbox[0];
    forall k | 0 <= k < |next.clients| ensures ScriptSound(config, next.handled, next.clients[k]) {
      if Awaited(state, m) && k == m.client {
        RepliedScriptSound(config, state.handled, h, state.clients[k], h.reply);
      } else {
        ScriptSoundGrows(config, state.handled, h, state.clients[k]);
      }
    }
    forall i | 0 <= i < |next.finished| && next.finished[i].outcome.Ended?
      ensures CarriedOut(config, next.handled, next.finished[i])
    {
      CarriedOutGrows(config, state.handled, h, state.finished[i]);
    }
    forall i | 0 <= i < |next.finished| ensures Concluded(config, next.handled, next.finished[i]) {
      ConcludedGrows(config, state.handled, h, state.finished[i]);
    }
  }

  lemma SendKeepsScripted(config: Config, state: State, k: nat)
    requires Scripted(config, state) && Enabled(config, state, Send(k))
    ensures Scripted(config, ApplySend(config, state, k))
  {
    var c, next := state.clients[k], ApplySend(config, state, k);
    assert ScriptSound(config, state.handled, c);
    assert ScriptSound(config, next.handled, next.clients[k]);
  }

  lemma StepKeepsScripted(config: Config, state: State, action: Action)
    requires Scripted(config, state) && Sound(config, state) && Enabled(config, state, action)
    ensures Scripted(config, Apply(config, state, action))
  {
    match action
    case Send(k) => SendKeepsScripted(config, state, k);
    case Handling(s) => HandlingKeepsScripted(config, state, s);
    case Receive(k) => ReceiveKeepsScripted(config, state, k);
    case _ =>
  }

  /** Whoever returns Ok from ending a transaction has had its whole script carried out while the call was running:
      the end itself, the resolution on the shard of every partition it handed over, in order, and then, after a
      commit only, every offset it handed over, in order, each of them accepted. */
  lemma {:induction false} EveryEndIsCarriedOut(config: Config, clients: nat, actions: seq<Action>)
    requires Run(config, Start(config, clients), actions).Some?
    ensures Scripted(config, Run(config, Start(config, clients), actions).value)
  {
    if actions != [] {
      var front := actions[..|actions| - 1];
      EveryEndIsCarriedOut(config, clients, front);
      EveryRunIsSound(config, clients, front);
      StepKeepsScripted(config, Run(config, Start(config, clients), front).value, actions[|actions| - 1]);
    }
  }

  /** What an end hands over is what was enlisted: the partitions and offsets added to the transaction since its last
      initialisation or end, among the requests the coordinator had handled by then. */
  lemma CompletionIsWhatWasEnlisted(config: Config, handled: seq<Handled>, p: nat, call: Call, c: Completion)
    requires p < |handled| && BrokerOrder.Agrees(config, handled, p) && call.EndCall?
    requires handled[p].command == CommandOf(call, First) && handled[p].reply == Transacted(Ok(Completed(c)))
    ensures var requests := BrokerOrder.TransactionRequests(handled[..p]);
            var start := TransactionHistory.SinceBoundary(requests, call.tid);
            && (forall tp :: tp in c.partitions <==>
                  tp in TransactionHistory.EnlistedPartitions(requests, start, call.tid))
            && c.offsets == TransactionHistory.EnlistedOffsets(requests, start, call.tid)
  {
    TransactionHistory.EndReturnsWhatWasEnlisted(BrokerOrder.TransactionRequests(handled[..p]), call.tid, call.producer,
                                                 call.commit);
  }

  lemma {:induction false} FirstEntry(script: seq<Handled>, n: nat, handled: seq<Handled>, since: nat, bound: nat)
    returns (p: nat)
    requires 0 < n <= |script| && bound <= |handled| && Within(script, n, handled, since, bound)
    ensures since <= p < bound && handled[p] == script[0]
  {
    p :| p < bound && handled[p] == script[n - 1] && Within(script, n - 1, handled, since, p);
    if n > 1 {
      p := FirstEntry(script, n - 1, handled, since, p);
    }
  }

  /** An end that returned Ok was carried out for exactly what had been enlisted when the coordinator ended it. */
  lemma {:induction false} EndedAsEnlisted(config: Config, clients: nat, actions: seq<Action>, i: nat)
    returns (p: nat, c: Completion)
    requires Run(config, Start(config, clients), actions).Some?
    requires var finished := Run(config, Start(config, clients), actions).value.finished;
             i < |finished| && finished[i].outcome.Ended?
    ensures var state := Run(config, Start(config, clients), actions).value;
            var f := state.finished[i];
            && f.call.EndCall? && f.since <= p < f.until <= |state.handled|
            && state.handled[p] == Handled(0, CommandOf(f.call, First), Transacted(Ok(Completed(c))))
            && Within(Script(config, f.call, c), |Script(config, f.call, c)|, state.handled, f.since, f.until)
            && var requests := BrokerOrder.TransactionRequests(state.handled[..p]);
            var start := TransactionHistory.SinceBoundary(requests, f.call.tid);
            && (forall tp :: tp in c.partitions <==>
                  tp in TransactionHistory.EnlistedPartitions(requests, start, f.call.tid))
            && c.offsets == TransactionHistory.EnlistedOffsets(requests, start, f.call.tid)
  {
    EveryEndIsCarriedOut(config, clients, actions);
    BrokerOrder.EveryRunIsSequential(config, clients, actions);
    var state := Run(config, Start(config, clients), actions).value;
    var f := state.finished[i];
    assert CarriedOut(config, state.handled, f);
    c :| Within(Script(config, f.call, c), |Script(config, f.call, c)|, state.handled, f.since, f.until);
    p := FirstEntry(Script(config, f.call, c), |Script(config, f.call, c)|, state.handled, f.since, f.until);
    assert BrokerOrder.Agrees(config, state.handled, p);
    CompletionIsWhatWasEnlisted(config, state.handled, p, f.call, c);
  }
}
