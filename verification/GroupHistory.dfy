/** The group coordinator over whole histories: generations fence, and stored offsets are the last accepted ones. */
module GroupHistory {
  import opened Records
  import opened Transactions
  import opened Groups

  function After(h: seq<GroupRequest>): Coordination {
    if h == [] then map[] else ServeGroup(After(h[..|h| - 1]), h[|h| - 1]).0
  }

  lemma AfterPush(h: seq<GroupRequest>, r: GroupRequest)
    ensures After(h + [r]) == ServeGroup(After(h), r).0
  {
    assert (h + [r])[..|h|] == h;
  }

  predicate AcceptedAt(h: seq<GroupRequest>, i: nat)
    requires i < |h|
  {
    ServeGroup(After(h[..i]), h[i]).1.Ok?
  }

  /** A refused request leaves no trace, and no request touches a group it does not name. */
  lemma RequestsStayInTheirGroup(c: Coordination, request: GroupRequest, other: Bytes)
    ensures ServeGroup(c, request).1.Err? ==> ServeGroup(c, request).0 == c
    ensures other != request.group ==> (other in ServeGroup(c, request).0 <==> other in c)
    ensures other != request.group && other in c ==> ServeGroup(c, request).0[other] == c[other]
  {
    if request.group in c {
      assert c == c[request.group := c[request.group]];
    }
  }

  // ---------------------------------------------------------------- generations

  predicate Rebalances(request: GroupRequest, group: Bytes) {
    request.group == group && (request.Join? || request.Leave? || request.LeaveAny?)
  }

  /** How often membership of `group` has changed. */
  function Rebalanced(h: seq<GroupRequest>, group: Bytes): nat {
    if h == [] then 0
    else Rebalanced(h[..|h| - 1], group) + if Rebalances(h[|h| - 1], group) && AcceptedAt(h, |h| - 1) then 1 else 0
  }

  /** A group exists once its membership has changed; its generation counts the changes, saturating at i32. */
  lemma {:induction false} GenerationCountsRebalances(h: seq<GroupRequest>, group: Bytes)
    ensures group in After(h) <==> Rebalanced(h, group) > 0
    ensures group in After(h) ==> After(h)[group].generation == Saturating(Rebalanced(h, group), I32_MAX)
  {
    if h != [] {
      var before, last := h[..|h| - 1], h[|h| - 1];
      GenerationCountsRebalances(before, group);
      RequestsStayInTheirGroup(After(before), last, group);
    }
  }

  lemma {:induction false} RebalancedMonotone(h: seq<GroupRequest>, i: nat, group: Bytes)
    requires i <= |h|
    ensures Rebalanced(h[..i], group) <= Rebalanced(h, group)
  {
    if i == |h| {
      assert h[..i] == h;
    } else {
      RebalancedMonotone(h[..|h| - 1], i, group);
      assert h[..|h| - 1][..i] == h[..i];
    }
  }

  predicate CarriesGeneration(request: GroupRequest) {
    request.Heartbeat? || request.Leave? || request.CommitOffset?
  }

  /** A request that carries a generation other than the group's current one is refused. */
  lemma StaleGenerationRefused(c: Coordination, request: GroupRequest)
    requires CarriesGeneration(request) && request.group in c && request.generation != c[request.group].generation
    ensures ServeGroup(c, request) == (c, Err(IllegalGeneration))
  {
    assert c == c[request.group := c[request.group]];
  }

  /** A generation held at time `i` is still current at the end exactly when membership has not changed since,
      or the generation had already reached the i32 ceiling. */
  lemma GenerationCurrentExactly(h: seq<GroupRequest>, i: nat, group: Bytes)
    requires i <= |h| && group in After(h[..i])
    ensures group in After(h)
    ensures After(h)[group].generation == After(h[..i])[group].generation
      <==> Rebalanced(h, group) == Rebalanced(h[..i], group) || After(h[..i])[group].generation == I32_MAX
  {
    GenerationCountsRebalances(h, group);
    GenerationCountsRebalances(h[..i], group);
    RebalancedMonotone(h, i, group);
  }

  /** Below the ceiling a superseded generation is never accepted again by heartbeat, leave or commit. */
  lemma SupersededNeverAccepted(h: seq<GroupRequest>, i: nat, request: GroupRequest)
    requires i <= |h| && request.group in After(h[..i]) && CarriesGeneration(request)
    requires request.generation == After(h[..i])[request.group].generation < I32_MAX
    requires Rebalanced(h, request.group) > Rebalanced(h[..i], request.group)
    ensures ServeGroup(After(h), request) == (After(h), Err(IllegalGeneration))
  {
    GenerationCurrentExactly(h, i, request.group);
    StaleGenerationRefused(After(h), request);
  }

  // ---------------------------------------------------------------- who holds the current generation

  ghost predicate OneHolder(g: Group) {
    && (forall m :: m in g.members ==> g.members[m].generation <= g.generation)
    && (forall m, n ::
          m in g.members && n in g.members && g.members[m].generation == g.generation == g.members[n].generation ==>
          m == n)
  }

  lemma JoinKeepsOneHolder(g: Group, member: Bytes, subscriptions: seq<Bytes>, list: seq<TopicPartition>)
    requires OneHolder(g) && 0 <= g.generation < I32_MAX
    ensures OneHolder(JoinGroup(g, member, subscriptions, list))
  {
  }

  lemma ActKeepsOneHolder(g: Group, request: GroupRequest)
    requires OneHolder(g) && 0 <= g.generation < I32_MAX && !request.Join?
    ensures OneHolder(Groups.Act(g, request).0)
  {
  }

  /** As long as membership has changed at most 2^31 - 1 times, at most one member holds the current generation. */
  lemma {:induction false} AtMostOneCurrentMember(h: seq<GroupRequest>, group: Bytes)
    requires group in After(h) && Rebalanced(h, group) <= I32_MAX
    ensures OneHolder(After(h)[group])
  {
    var before, last := h[..|h| - 1], h[|h| - 1];
    var c := After(before);
    RequestsStayInTheirGroup(c, last, group);
    GenerationCountsRebalances(before, group);
    GenerationCountsRebalances(h, group);
    if group in c {
      AtMostOneCurrentMember(before, group);
      if last.group == group && ServeGroup(c, last).1.Ok? {
        if last.Join? {
          JoinKeepsOneHolder(c[group], last.member, last.subscriptions, last.partitions);
        } else if c[group].generation < I32_MAX {
          ActKeepsOneHolder(c[group], last);
        }
      }
    } else {
      JoinKeepsOneHolder(Group(0, map[], [], map[]), last.member, last.subscriptions, last.partitions);
    }
  }

  // ---------------------------------------------------------------- committed offsets

  /** The offset of the last accepted commit for the partition, if there was one. */
  function LastCommitted(h: seq<GroupRequest>, group: Bytes, partition: TopicPartition): Option<int> {
    if h == [] then None
    else
      var last := h[|h| - 1];
      if last.CommitOffset? && last.group == group && last.partition == partition && AcceptedAt(h, |h| - 1)
      then Some(last.offset)
      else LastCommitted(h[..|h| - 1], group, partition)
  }

  lemma LastCommittedPush(h: seq<GroupRequest>, r: GroupRequest, group: Bytes, partition: TopicPartition)
    ensures LastCommitted(h + [r], group, partition)
            == if r.CommitOffset? && r.group == group && r.partition == partition && ServeGroup(After(h), r).1.Ok?
               then Some(r.offset) else LastCommitted(h, group, partition)
  {
    assert (h + [r])[..|h|] == h;
  }

  /** What a group reports for a partition is the offset of the last accepted commit. */
  lemma {:induction false} StoredOffsetIsLastCommit(h: seq<GroupRequest>, group: Bytes, partition: TopicPartition)
    ensures group !in After(h) ==> LastCommitted(h, group, partition).None?
    ensures group in After(h) ==>
      ServeGroup(After(h), FetchOffset(group, partition))
      == (After(h), Ok(Fetched(LastCommitted(h, group, partition))))
  {
    if h != [] {
      var before, last := h[..|h| - 1], h[|h| - 1];
      StoredOffsetIsLastCommit(before, group, partition);
      RequestsStayInTheirGroup(After(before), last, group);
      RequestsStayInTheirGroup(After(h), FetchOffset(group, partition), group);
    }
    if group in After(h) {
      assert After(h) == After(h)[group := After(h)[group]];
    }
  }
}
