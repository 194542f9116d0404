/** The offsets of a transaction: when they are committed, what the group then reports, and when the end fails. */
module BrokerOffsets {
  import opened Records
  import opened Transactions
  import opened Groups
  import opened Shards
  import opened Broker
  import opened BrokerOrder
  import opened BrokerScripts
  import BrokerRuns
  import GroupHistory
  import TransactionHistory

  // ---------------------------------------------------------------- what a group reports

  /** The group coordinator accepted a commit for the partition. */
  predicate CommitsTo(h: Handled, group: Bytes, tp: TopicPartition) {
    && h.command.Coordinate? && h.command.request.OfGroup? && h.command.request.grouped.CommitOffset?
    && h.command.request.grouped.group == group && h.command.request.grouped.partition == tp
    && h.reply.Grouped? && h.reply.groupAnswer.Ok?
  }

  function ReportedAt(handled: seq<Handled>, n: nat, group: Bytes, tp: TopicPartition): Option<int>
    requires n <= |handled|
  {
    GroupHistory.LastCommitted(GroupRequests(handled[..n]), group, tp)
  }

  lemma ReportedStep(config: Config, handled: seq<Handled>, n: nat, group: Bytes, tp: TopicPartition)
    requires n < |handled| && Agrees(config, handled, n)
    ensures ReportedAt(handled, n + 1, group, tp)
            == if CommitsTo(handled[n], group, tp) then Some(handled[n].command.request.grouped.offset)
               else ReportedAt(handled, n, group, tp)
  {
    var h := handled[n];
    assert handled[..n + 1] == handled[..n] + [h];
    RequestsGrow(handled[..n], h);
    if h.command.Coordinate? && h.command.request.OfGroup? {
      GroupHistory.LastCommittedPush(GroupRequests(handled[..n]), h.command.request.grouped, group, tp);
    }
  }

  lemma {:induction false} ReportedUntil(config: Config, handled: seq<Handled>, p: nat, n: nat, group: Bytes,
                                         tp: TopicPartition)
    requires p < n <= |handled| && forall i :: 0 <= i < |handled| ==> Agrees(config, handled, i)
    requires CommitsTo(handled[p], group, tp) && forall q :: p < q < n ==> !CommitsTo(handled[q], group, tp)
    ensures ReportedAt(handled, n, group, tp) == Some(handled[p].command.request.grouped.offset)
    decreases n
  {
    if n > p + 1 {
      ReportedUntil(config, handled, p, n - 1, group, tp);
    }
    assert Agrees(config, handled, n - 1);
    ReportedStep(config, handled, n - 1, group, tp);
  }

  predicate AsksFor(h: Handled, group: Bytes, tp: TopicPartition) {
    h.command == Coordinate(OfGroup(FetchOffset(group, tp)))
  }

  /** In every run, once a commit has been accepted, whoever asks the group for the partition is told that offset, until
      the next commit for it is accepted. */
  lemma {:induction false} CommittedIsReported(config: Config, state: State, p: nat, q: nat, group: Bytes,
                                               tp: TopicPartition)
    requires BrokerRuns.Reachable(config, state) && p < q < |state.handled|
    requires CommitsTo(state.handled[p], group, tp) && AsksFor(state.handled[q], group, tp)
    requires forall n :: p < n < q ==> !CommitsTo(state.handled[n], group, tp)
    ensures state.handled[q].reply == Grouped(Ok(Fetched(Some(state.handled[p].command.request.grouped.offset))))
  {
    BrokerRuns.ReachableIsSound(config, state);
    ReportedUntil(config, state.handled, p, q, group, tp);
    GroupHistory.StoredOffsetIsLastCommit(GroupRequests(state.handled[..q]), group, tp);
    assert Agrees(config, state.handled, q);
  }

  // ---------------------------------------------------------------- when a commit is accepted

  /** The group as it was when the command at a position was handled. */
  function GroupsAt(handled: seq<Handled>, p: nat): Coordination
    requires p <= |handled|
  {
    GroupHistory.After(GroupRequests(handled[..p]))
  }

  /** The group exists at the generation the offset was enlisted with. */
  predicate GroupCurrent(handled: seq<Handled>, p: nat, o: TransactionOffset)
    requires p <= |handled|
  {
    o.groupId in GroupsAt(handled, p) && GroupsAt(handled, p)[o.groupId].generation == o.generation
  }

  function Refusal(handled: seq<Handled>, p: nat, o: TransactionOffset): CoordinationError
    requires p <= |handled|
  {
    if o.groupId in GroupsAt(handled, p) then IllegalGeneration else UnknownGroup
  }

  lemma CommitAcceptedIff(config: Config, handled: seq<Handled>, p: nat, o: TransactionOffset)
    requires p < |handled| && Agrees(config, handled, p) && handled[p].command == OffsetCommand(o)
    requires o.partition >= 0 && o.offset >= 0
    ensures handled[p].reply
            == Grouped(if GroupCurrent(handled, p, o) then Ok(Done) else Err(Refusal(handled, p, o)))
  {
  }

  /** An offset is enlisted only with a partition and a position that a commit takes. */
  lemma {:induction false} EnlistedIsWellFormed(h: seq<Request>, start: nat, tid: Bytes, o: TransactionOffset)
    requires o in TransactionHistory.EnlistedOffsets(h, start, tid)
    ensures o.partition >= 0 && o.offset >= 0
  {
    var before := TransactionHistory.EnlistedOffsets(h[..|h| - 1], start, tid);
    if o in before {
      EnlistedIsWellFormed(h[..|h| - 1], start, tid, o);
    }
  }

  // ---------------------------------------------------------------- when an end that is not given up fails

  /** Positions at which the messages of a script were handled, in order. */
  predicate Positions(qs: seq<nat>, since: nat, until: nat) {
    && (forall i :: 0 <= i < |qs| ==> since <= qs[i] < until)
    && (forall i, j :: 0 <= i < j < |qs| ==> qs[i] < qs[j])
  }

  lemma {:induction false} Unrolled(script: seq<Handled>, n: nat, handled: seq<Handled>, since: nat, bound: nat)
    returns (qs: seq<nat>)
    requires n <= |script| && bound <= |handled| && Within(script, n, handled, since, bound)
    ensures |qs| == n && Positions(qs, since, bound)
    ensures forall i :: 0 <= i < n ==> handled[qs[i]] == script[i]
    ensures since <= bound
  {
    qs := [];
    if n > 0 {
      var p: nat :| p < bound && handled[p] == script[n - 1] && Within(script, n - 1, handled, since, p);
      qs := Unrolled(script, n - 1, handled, since, p);
      qs := qs + [p];
    }
  }

  /** How far a call came: the end and every resolution were acknowledged and, for a commit, commits were handled for
      the first offsets, all of these in order. */
  predicate Played(config: Config, handled: seq<Handled>, f: Finished, c: Completion, qs: seq<nat>)
    requires f.call.EndCall?
  {
    var script, resolved := Script(config, f.call, c), 1 + |c.partitions|;
    && f.until <= |handled| && Positions(qs, f.since, f.until)
    && resolved <= |qs| <= |script|
    && (forall j :: 0 <= j < resolved ==> handled[qs[j]] == script[j])
    && (forall j :: resolved <= j < |qs| ==> handled[qs[j]].command == script[j].command)
  }

  /** The group of the offset that the `j`-th message of the script commits is current when the commit is handled. */
  predicate CurrentAt(handled: seq<Handled>, c: Completion, qs: seq<nat>, j: nat)
    requires 1 + |c.partitions| <= j < |qs| && j < 1 + |c.partitions| + |c.offsets| && qs[j] <= |handled|
  {
    GroupCurrent(handled, qs[j], c.offsets[j - 1 - |c.partitions|])
  }

  ghost predicate AllCurrent(handled: seq<Handled>, c: Completion, qs: seq<nat>)
    requires |qs| <= 1 + |c.partitions| + |c.offsets| && forall j :: 0 <= j < |qs| ==> qs[j] <= |handled|
  {
    forall j {:trigger CurrentAt(handled, c, qs, j)} :: 1 + |c.partitions| <= j < |qs| ==> CurrentAt(handled, c, qs, j)
  }

  lemma HandedOverIsWellFormed(config: Config, handled: seq<Handled>, p: nat, call: Call, c: Completion, i: nat)
    requires p < |handled| && Agrees(config, handled, p) && call.EndCall?
    requires handled[p] == Handled(0, CommandOf(call, First), Transacted(Ok(Completed(c)))) && i < |c.offsets|
    ensures c.offsets[i].partition >= 0 && c.offsets[i].offset >= 0
  {
    CompletionIsWhatWasEnlisted(config, handled, p, call, c);
    var requests := TransactionRequests(handled[..p]);
    EnlistedIsWellFormed(requests, TransactionHistory.SinceBoundary(requests, call.tid), call.tid, c.offsets[i]);
  }

  /** The end itself was not refused. */
  predicate Accepted(handled: seq<Handled>, f: Finished)
    requires Answered(f)
  {
    && f.position.value < |handled|
    && !(handled[f.position.value].reply.Transacted? && handled[f.position.value].reply.answer.Err?)
  }

  /** What an accepted end hands over has partitions, so the call goes on. */
  lemma AcceptedGoesOn(config: Config, handled: seq<Handled>, f: Finished)
    requires Answered(f) && Accepted(handled, f) && Agrees(config, handled, f.position.value)
    ensures !ConcludedAt(config, handled, f, First)
  {
    var requests := TransactionRequests(handled[..f.position.value]);
    TransactionHistory.EndReturnsWhatWasEnlisted(requests, f.call.tid, f.call.producer, f.call.commit);
  }

  /** A call without offsets to commit returns Ok once the last resolution is acknowledged. */
  lemma {:induction false} ConcludesWithoutCommits(config: Config, handled: seq<Handled>, f: Finished, stage: Stage)
    returns (qs: seq<nat>)
    requires forall i :: 0 <= i < |handled| ==> Agrees(config, handled, i)
    requires Answered(f) && ConcludedAt(config, handled, f, stage) && stage.Resolving?
    ensures Played(config, handled, f, stage.completion, qs)
    ensures |qs| == |Script(config, f.call, stage.completion)| == 1 + |stage.completion.partitions|
    ensures f.outcome.Ended?
  {
    var p, c := f.position.value, stage.completion;
    assert Agrees(config, handled, p);
    qs := Unrolled(Script(config, f.call, c), EntryOf(stage), handled, f.since, p);
    qs := qs + [p];
  }

  lemma CommitIsCurrentIff(config: Config, handled: seq<Handled>, f: Finished, c: Completion, qs: seq<nat>, j: nat)
    requires f.call.EndCall? && Played(config, handled, f, c, qs) && 1 + |c.partitions| <= j < |qs|
    requires Agrees(config, handled, qs[0]) && Agrees(config, handled, qs[j])
    ensures var o := c.offsets[j - 1 - |c.partitions|];
            handled[qs[j]].reply
            == Grouped(if CurrentAt(handled, c, qs, j) then Ok(Done) else Err(Refusal(handled, qs[j], o)))
  {
    var i := j - 1 - |c.partitions|;
    HandedOverIsWellFormed(config, handled, qs[0], f.call, c, i);
    CommitAcceptedIff(config, handled, qs[j], c.offsets[i]);
  }

  /** The commits before the last one were accepted, and the last one decides what the call returns. */
  lemma {:induction false} ConcludesInCommits(config: Config, handled: seq<Handled>, f: Finished, c: Completion, i: nat)
    returns (qs: seq<nat>)
    requires forall i :: 0 <= i < |handled| ==> Agrees(config, handled, i)
    requires Answered(f) && f.call.commit && ConcludedAt(config, handled, f, Committing(c, i))
    ensures Played(config, handled, f, c, qs) && |qs| == 2 + |c.partitions| + i && qs[|qs| - 1] == f.position.value
    ensures forall j :: 1 + |c.partitions| <= j < |qs| - 1 ==> CurrentAt(handled, c, qs, j)
  {
    var p, script := f.position.value, Script(config, f.call, c);
    qs := Unrolled(script, EntryOf(Committing(c, i)), handled, f.since, p);
    qs := qs + [p];
    assert Played(config, handled, f, c, qs) by {
      EntryIsMessage(config, f.call, Committing(c, i), c);
    }
    forall j | 1 + |c.partitions| <= j < |qs| - 1 ensures CurrentAt(handled, c, qs, j) {
      assert handled[qs[j]] == script[j];
      CommitIsCurrentIff(config, handled, f, c, qs, j);
    }
  }

  /** What a committing call returns that got its completion and was not given up: Ok exactly when the group of every
      offset was current at the moment its commit was handled; otherwise why the first commit that was not accepted was
      refused. Either way every partition has been resolved by then. */
  ghost predicate ReturnsFor(config: Config, handled: seq<Handled>, f: Finished, c: Completion, qs: seq<nat>)
    requires f.call.EndCall? && Played(config, handled, f, c, qs) && f.call.commit
  {
    var last := |qs| - 1;
    && (f.outcome.Ended? <==> |qs| == |Script(config, f.call, c)| && AllCurrent(handled, c, qs))
    && (!f.outcome.Ended? ==>
          && 1 + |c.partitions| <= last
          && f.outcome == Refused(Refusal(handled, qs[last], c.offsets[last - 1 - |c.partitions|])))
    && (forall j :: 1 + |c.partitions| <= j < last ==> CurrentAt(handled, c, qs, j))
  }

  lemma AfterCommit(config: Config, call: Call, c: Completion, i: nat, accepted: bool, error: CoordinationError,
                    outcome: Outcome)
    requires StageFits(call, Committing(c, i))
    requires AfterReply(config, call, Committing(c, i), Grouped(if accepted then Ok(Done) else Err(error)))
             == Finish(outcome)
    ensures if accepted then outcome.Ended? && i + 1 == |c.offsets| else outcome == Refused(error)
  {
  }

  lemma ScriptLength(config: Config, call: Call, c: Completion)
    requires call.EndCall? && call.commit
    ensures |Script(config, call, c)| == 1 + |c.partitions| + |c.offsets|
  {
  }

  lemma {:induction false} LastCommitDecides(config: Config, handled: seq<Handled>, f: Finished, c: Completion, i: nat)
    returns (qs: seq<nat>)
    requires forall i :: 0 <= i < |handled| ==> Agrees(config, handled, i)
    requires Answered(f) && f.call.commit && ConcludedAt(config, handled, f, Committing(c, i))
    ensures Played(config, handled, f, c, qs) && ReturnsFor(config, handled, f, c, qs)
  {
    qs := ConcludesInCommits(config, handled, f, c, i);
    var last := |qs| - 1;
    var current, error := CurrentAt(handled, c, qs, last), Refusal(handled, qs[last], c.offsets[i]);
    assert handled[qs[last]].reply == Grouped(if current then Ok(Done) else Err(error)) by {
      assert Agrees(config, handled, qs[0]) && Agrees(config, handled, qs[last]);
      CommitIsCurrentIff(config, handled, f, c, qs, last);
    }
    AfterCommit(config, f.call, c, i, current, error, f.outcome);
    LastDecides(config, handled, f, c, qs, i);
  }

  lemma LastDecides(config: Config, handled: seq<Handled>, f: Finished, c: Completion, qs: seq<nat>, i: nat)
    requires f.call.EndCall? && f.call.commit && Played(config, handled, f, c, qs) && |qs| == 2 + |c.partitions| + i
    requires forall j :: 1 + |c.partitions| <= j < |qs| - 1 ==> CurrentAt(handled, c, qs, j)
    requires if CurrentAt(handled, c, qs, |qs| - 1) then f.outcome.Ended? && i + 1 == |c.offsets|
             else f.outcome == Refused(Refusal(handled, qs[|qs| - 1], c.offsets[i]))
    ensures ReturnsFor(config, handled, f, c, qs)
  {
    ScriptLength(config, f.call, c);
  }

  /** What a call returns that ends a transaction, was not given up and was not refused by the transaction coordinator:
      the end and every resolution have been acknowledged by then, in order. An abort returns Ok. A commit returns Ok
      exactly when the group of every enlisted offset was current when its commit was handled, and otherwise the refusal
      of the first commit for which it was not, with every partition already committed. */
  lemma {:induction false} EndReturns(config: Config, state: State, i: nat) returns (c: Completion, qs: seq<nat>)
    requires BrokerRuns.Reachable(config, state) && i < |state.finished|
    requires Answered(state.finished[i]) && Accepted(state.handled, state.finished[i])
    ensures var f := state.finished[i];
            && Played(config, state.handled, f, c, qs)
            && (f.call.commit ==> ReturnsFor(config, state.handled, f, c, qs))
            && (!f.call.commit ==> f.outcome.Ended? && |qs| == |Script(config, f.call, c)|)
  {
    BrokerRuns.ReachableIsSound(config, state);
    ReachableIsScripted(config, state);
    var f := state.finished[i];
    assert Concluded(config, state.handled, f);
    var stage :| ConcludedAt(config, state.handled, f, stage);
    assert Agrees(config, state.handled, f.position.value);
    AcceptedGoesOn(config, state.handled, f);
    if stage.Resolving? {
      c := stage.completion;
      qs := ConcludesWithoutCommits(config, state.handled, f, stage);
    } else {
      c := stage.completion;
      qs := LastCommitDecides(config, state.handled, f, c, stage.index);
    }
  }

  lemma {:induction false} ReachableIsScripted(config: Config, state: State)
    requires BrokerRuns.Reachable(config, state)
    ensures Scripted(config, state)
  {
    var clients: nat :| BrokerRuns.Reaches(config, Start(config, clients), state);
    var actions :| Run(config, Start(config, clients), actions) == Some(state);
    EveryEndIsCarriedOut(config, clients, actions);
  }

  /** A call that returned Ok from ending has had its whole script handled, in order and as it stands. */
  lemma {:induction false} OkIsPlayed(config: Config, state: State, i: nat) returns (c: Completion, qs: seq<nat>)
    requires BrokerRuns.Reachable(config, state) && i < |state.finished| && state.finished[i].outcome.Ended?
    ensures var f := state.finished[i];
            && f.call.EndCall? && Played(config, state.handled, f, c, qs) && |qs| == |Script(config, f.call, c)|
            && forall j :: 0 <= j < |qs| ==> state.handled[qs[j]] == Script(config, f.call, c)[j]
  {
    ReachableIsScripted(config, state);
    var f := state.finished[i];
    assert CarriedOut(config, state.handled, f);
    c :| Within(Script(config, f.call, c), |Script(config, f.call, c)|, state.handled, f.since, f.until);
    qs := Unrolled(Script(config, f.call, c), |Script(config, f.call, c)|, state.handled, f.since, f.until);
  }
}
