/** The consumer-group coordinator: membership, generations, round-robin assignment and committed offsets. */
module Groups {
  import opened Records
  import opened Order
  import opened Transactions

  const I32_MAX := 0x7fff_ffff

  datatype Member = Member(subscriptions: seq<Bytes>, generation: int, alive: bool)

  datatype Assignment = Assignment(memberId: Bytes, partitions: seq<TopicPartition>)

  datatype Group = Group(generation: int, members: map<Bytes, Member>, assignments: seq<Assignment>,
                         offsets: map<TopicPartition, int>)

  type Coordination = map<Bytes, Group>

  datatype GroupRequest =
    | Join(group: Bytes, member: Bytes, subscriptions: seq<Bytes>, partitions: seq<TopicPartition>)
    | Heartbeat(group: Bytes, member: Bytes, generation: int)
    | Leave(group: Bytes, member: Bytes, generation: int)
    | LeaveAny(group: Bytes, member: Bytes)
    | CommitOffset(group: Bytes, generation: int, partition: TopicPartition, offset: int)
    | FetchOffset(group: Bytes, partition: TopicPartition)

  datatype GroupResponse =
    | Joined(generation: int, assignments: seq<Assignment>)
    | Done
    | Fetched(offset: Option<int>)

  type GroupAnswer = Result<GroupResponse, CoordinationError>

  // ---------------------------------------------------------------- round-robin assignment

  function MemberOrder(members: map<Bytes, Member>): (order: seq<Bytes>)
    ensures forall id :: id in order <==> id in members
    ensures SortedBy(order, BytesLess)
  {
    BytesOrdered();
    Ascending(members.Keys, BytesLess)
  }

  predicate Subscribes(members: map<Bytes, Member>, id: Bytes, topic: Bytes) {
    id in members && topic in members[id].subscriptions
  }

  /** Positions in `order` of the members subscribed to `topic`, ascending. */
  function Eligible(order: seq<Bytes>, members: map<Bytes, Member>, topic: Bytes): (positions: seq<nat>)
    ensures forall k :: 0 <= k < |positions| ==>
      positions[k] < |order| && Subscribes(members, order[positions[k]], topic)
    ensures forall j, k :: 0 <= j < k < |positions| ==> positions[j] < positions[k]
    ensures forall p :: 0 <= p < |order| && Subscribes(members, order[p], topic) ==> p in positions
  {
    if order == [] then []
    else
      var last := |order| - 1;
      Eligible(order[..last], members, topic) + if Subscribes(members, order[last], topic) then [last] else []
  }

  /** The position of the member that receives entry `i` of the list, if anyone subscribes to its topic. */
  function Owner(order: seq<Bytes>, members: map<Bytes, Member>, list: seq<TopicPartition>, i: nat): Option<nat>
    requires i < |list|
  {
    var eligible := Eligible(order, members, list[i].0);
    if eligible == [] then None else Some(eligible[i % |eligible|])
  }

  function Owners(order: seq<Bytes>, members: map<Bytes, Member>, list: seq<TopicPartition>): seq<Option<nat>> {
    seq(|list|, i requires 0 <= i < |list| => Owner(order, members, list, i))
  }

  /** The entries owned by position `m`, in list order. */
  function Given(owners: seq<Option<nat>>, list: seq<TopicPartition>, m: nat): seq<TopicPartition>
    requires |owners| == |list|
  {
    if list == [] then []
    else
      var last := |list| - 1;
      if owners[last] == Some(m) then Given(owners[..last], list[..last], m) + [list[last]]
      else Given(owners[..last], list[..last], m)
  }

  function Assignments(members: map<Bytes, Member>, list: seq<TopicPartition>): seq<Assignment> {
    var order := MemberOrder(members);
    var owners := Owners(order, members, list);
    seq(|order|, m requires 0 <= m < |order| => Assignment(order[m], Given(owners, list, m)))
  }

  // ---------------------------------------------------------------- the operations

  function NextGeneration(generation: int): int {
    var bumped := Saturating(generation + 1, I32_MAX);
    if bumped < 1 then 1 else bumped
  }

  function GroupOrNew(c: Coordination, group: Bytes): Group {
    if group in c then c[group] else Group(0, map[], [], map[])
  }

  function JoinGroup(g: Group, member: Bytes, subscriptions: seq<Bytes>, list: seq<TopicPartition>): Group {
    var generation := NextGeneration(g.generation);
    var members := g.members[member := Member(subscriptions, generation, true)];
    g.(generation := generation, members := members, assignments := Assignments(members, list))
  }

  function LeaveGroup(g: Group, member: Bytes): Group {
    g.(generation := NextGeneration(g.generation), members := g.members - {member})
  }

  /** What a request other than a join does to the group it names. */
  function Act(g: Group, request: GroupRequest): (Group, GroupAnswer)
    requires !request.Join?
  {
    match request
    case Heartbeat(_, member, generation) =>
      if generation != g.generation then (g, Err(IllegalGeneration))
      else if member !in g.members then (g, Err(UnknownMember))
      else if g.members[member].generation != generation then (g, Err(IllegalGeneration))
      else (g.(members := g.members[member := g.members[member].(alive := true)]), Ok(Done))
    case Leave(_, member, generation) =>
      if generation != g.generation then (g, Err(IllegalGeneration))
      else if member !in g.members then (g, Err(UnknownMember))
      else (LeaveGroup(g, member), Ok(Done))
    case LeaveAny(_, member) =>
      if member !in g.members then (g, Err(UnknownMember)) else (LeaveGroup(g, member), Ok(Done))
    case CommitOffset(_, generation, partition, offset) =>
      if generation != g.generation then (g, Err(IllegalGeneration))
      else if partition.1 < 0 || offset < 0 then (g, Err(InvalidId))
      else (g.(offsets := g.offsets[partition := offset]), Ok(Done))
    case FetchOffset(_, partition) =>
      (g, Ok(Fetched(if partition in g.offsets then Some(g.offsets[partition]) else None)))
  }

  function ServeGroup(c: Coordination, request: GroupRequest): (Coordination, GroupAnswer) {
    match request
    case Join(group, member, subscriptions, list) =>
      if group == [] || member == [] then (c, Err(InvalidId))
      else
        var g := JoinGroup(GroupOrNew(c, group), member, subscriptions, list);
        (c[group := g], Ok(Joined(g.generation, g.assignments)))
    case _ =>
      if request.group !in c then (c, Err(UnknownGroup))
      else
        var (g, answer) := Act(c[request.group], request);
        (c[request.group := g], answer)
  }

  // ---------------------------------------------------------------- the mutable coordinator

  /** The member positions that may receive a partition of `topic`, collected by a scan of the members. */
  method CollectEligible(order: seq<Bytes>, members: map<Bytes, Member>, topic: Bytes) returns (eligible: seq<nat>)
    requires forall id :: id in order ==> id in members
    ensures eligible == Eligible(order, members, topic)
  {
    eligible := [];
    for m := 0 to |order|
      invariant eligible == Eligible(order[..m], members, topic)
    {
      assert order[..m + 1][..m] == order[..m];
      if topic in members[order[m]].subscriptions {
        eligible := eligible + [m];
      }
    }
    assert order[..|order|] == order;
  }

  ghost predicate Dealt(assignments: seq<Assignment>, order: seq<Bytes>, owners: seq<Option<nat>>,
                        list: seq<TopicPartition>)
    requires |owners| == |list|
  {
    && |assignments| == |order|
    && forall m :: 0 <= m < |order| ==> assignments[m] == Assignment(order[m], Given(owners, list, m))
  }

  /** The assignment loop: entry by entry, each to one eligible member in turn. */
  method AssignRoundRobin(members: map<Bytes, Member>, list: seq<TopicPartition>) returns (assignments: seq<Assignment>)
    ensures assignments == Assignments(members, list)
  {
    var order := MemberOrder(members);
    ghost var owners := Owners(order, members, list);
    assignments := seq(|order|, m requires 0 <= m < |order| => Assignment(order[m], []));
    for index := 0 to |list|
      invariant Dealt(assignments, order, owners[..index], list[..index])
    {
      var eligible := CollectEligible(order, members, list[index].0);
      var owner := if |eligible| > 0 then Some(eligible[index % |eligible|]) else None;
      assignments := Deal(assignments, order, owners, list, index, owner);
    }
    assert list[..|list|] == list && owners[..|list|] == owners;
  }

  method Deal(assignments: seq<Assignment>, ghost order: seq<Bytes>, ghost owners: seq<Option<nat>>,
              list: seq<TopicPartition>, index: nat, owner: Option<nat>)
    returns (dealt: seq<Assignment>)
    requires |owners| == |list| && index < |list| && owner == owners[index]
    requires owner.Some? ==> owner.value < |order|
    requires Dealt(assignments, order, owners[..index], list[..index])
    ensures Dealt(dealt, order, owners[..index + 1], list[..index + 1])
  {
    dealt := assignments;
    if owner.Some? {
      var m := owner.value;
      dealt := assignments[m := assignments[m].(partitions := assignments[m].partitions + [list[index]])];
    }
    assert owners[..index + 1][..index] == owners[..index] && list[..index + 1][..index] == list[..index];
  }

  class GroupCoordinator {
    var groups: Coordination

    constructor ()
      ensures groups == map[]
    {
      groups := map[];
    }

    method Join(group: Bytes, member: Bytes, subscriptions: seq<Bytes>, list: seq<TopicPartition>)
      returns (r: GroupAnswer)
      modifies this
      ensures (groups, r) == ServeGroup(old(groups), GroupRequest.Join(group, member, subscriptions, list))
    {
      if |group| == 0 || |member| == 0 {
        return Err(InvalidId);
      }
      var g := Group(0, map[], [], map[]);
      if group in groups {
        g := groups[group];
      }
      var generation := if g.generation + 1 <= I32_MAX then g.generation + 1 else I32_MAX;
      g := g.(generation := if generation < 1 then 1 else generation);
      g := g.(members := g.members[member := Member(subscriptions, g.generation, true)]);
      var assignments := AssignRoundRobin(g.members, list);
      g := g.(assignments := assignments);
      groups := groups[group := g];
      r := Ok(Joined(g.generation, assignments));
    }

    method Heartbeat(group: Bytes, member: Bytes, generation: int) returns (r: GroupAnswer)
      modifies this
      ensures (groups, r) == ServeGroup(old(groups), GroupRequest.Heartbeat(group, member, generation))
    {
      if group !in groups {
        return Err(UnknownGroup);
      }
      assert groups == groups[group := groups[group]];
      var g := groups[group];
      if generation != g.generation {
        return Err(IllegalGeneration);
      }
      if member !in g.members {
        return Err(UnknownMember);
      }
      if g.members[member].generation != generation {
        return Err(IllegalGeneration);
      }
      groups := groups[group := g.(members := g.members[member := g.members[member].(alive := true)])];
      r := Ok(Done);
    }

    method Leave(group: Bytes, member: Bytes, generation: int) returns (r: GroupAnswer)
      modifies this
      ensures (groups, r) == ServeGroup(old(groups), GroupRequest.Leave(group, member, generation))
    {
      if group !in groups {
        return Err(UnknownGroup);
      }
      assert groups == groups[group := groups[group]];
      if generation != groups[group].generation {
        return Err(IllegalGeneration);
      }
      r := LeaveAny(group, member);
    }

    method LeaveAny(group: Bytes, member: Bytes) returns (r: GroupAnswer)
      modifies this
      ensures (groups, r) == ServeGroup(old(groups), GroupRequest.LeaveAny(group, member))
    {
      if group !in groups {
        return Err(UnknownGroup);
      }
      assert groups == groups[group := groups[group]];
      var g := groups[group];
      if member !in g.members {
        return Err(UnknownMember);
      }
      g := g.(members := g.members - {member});
      var generation := if g.generation + 1 <= I32_MAX then g.generation + 1 else I32_MAX;
      g := g.(generation := if generation < 1 then 1 else generation);
      groups := groups[group := g];
      r := Ok(Done);
    }

    method CommitOffset(group: Bytes, generation: int, partition: TopicPartition, offset: int) returns (r: GroupAnswer)
      modifies this
      ensures (groups, r) == ServeGroup(old(groups), GroupRequest.CommitOffset(group, generation, partition, offset))
    {
      if group !in groups {
        return Err(UnknownGroup);
      }
      assert groups == groups[group := groups[group]];
      var g := groups[group];
      if generation != g.generation {
        return Err(IllegalGeneration);
      }
      if partition.1 < 0 || offset < 0 {
        return Err(InvalidId);
      }
      groups := groups[group := g.(offsets := g.offsets[partition := offset])];
      r := Ok(Done);
    }

    method Offset(group: Bytes, partition: TopicPartition) returns (r: GroupAnswer)
      ensures (groups, r) == ServeGroup(groups, FetchOffset(group, partition))
    {
      if group !in groups {
        return Err(UnknownGroup);
      }
      assert groups == groups[group := groups[group]];
      var offsets := groups[group].offsets;
      r := Ok(Fetched(if partition in offsets then Some(offsets[partition]) else None));
    }
  }
}
