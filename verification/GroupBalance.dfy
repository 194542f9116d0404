/** Round-robin assignment: nothing lost, nothing given twice, and balanced shares. */
module GroupBalance {
  import opened Records
  import opened Order
  import opened Groups
  import Bits

  // ---------------------------------------------------------------- every covered entry goes to one subscriber

  /** An entry has an owner exactly when someone subscribes to its topic, and the owner is one of the subscribers. */
  lemma OwnerSubscribes(order: seq<Bytes>, members: map<Bytes, Member>, list: seq<TopicPartition>, i: nat)
    requires i < |list|
    ensures var owner := Owner(order, members, list, i);
      && (owner.Some? <==> exists p :: 0 <= p < |order| && Subscribes(members, order[p], list[i].0))
      && (owner.Some? ==> owner.value < |order| && Subscribes(members, order[owner.value], list[i].0))
  {
    var eligible := Eligible(order, members, list[i].0);
    if eligible != [] {
      assert eligible[0] < |order| && Subscribes(members, order[eligible[0]], list[i].0);
    }
  }

  /** The entries that have an owner, in list order. */
  function Owned(owners: seq<Option<nat>>, list: seq<TopicPartition>): seq<TopicPartition>
    requires |owners| == |list|
  {
    if list == [] then []
    else
      var last := |list| - 1;
      if owners[last].Some? then Owned(owners[..last], list[..last]) + [list[last]]
      else Owned(owners[..last], list[..last])
  }

  /** How many copies of an entry the first `k` positions are given together. */
  function Received(owners: seq<Option<nat>>, list: seq<TopicPartition>, k: nat, entry: TopicPartition): nat
    requires |owners| == |list|
  {
    if k == 0 then 0 else Received(owners, list, k - 1, entry) + multiset(Given(owners, list, k - 1))[entry]
  }

  lemma {:induction false} ReceivedOneMore(owners: seq<Option<nat>>, list: seq<TopicPartition>, k: nat,
                                           entry: TopicPartition)
    requires |owners| == |list| > 0
    ensures var last := |list| - 1;
      Received(owners, list, k, entry) == Received(owners[..last], list[..last], k, entry)
        + if owners[last].Some? && owners[last].value < k && entry == list[last] then 1 else 0
  {
    if k > 0 {
      ReceivedOneMore(owners, list, k - 1, entry);
    }
  }

  lemma {:induction false} ReceivedNothing(k: nat, entry: TopicPartition)
    ensures Received([], [], k, entry) == 0
  {
    if k > 0 {
      ReceivedNothing(k - 1, entry);
    }
  }

  lemma {:induction false} DealConservesEntries(owners: seq<Option<nat>>, list: seq<TopicPartition>, n: nat,
                                                entry: TopicPartition)
    requires |owners| == |list|
    requires forall i :: 0 <= i < |owners| ==> owners[i].Some? ==> owners[i].value < n
    ensures Received(owners, list, n, entry) == multiset(Owned(owners, list))[entry]
  {
    if list == [] {
      ReceivedNothing(n, entry);
    } else {
      DealConservesEntries(owners[..|list| - 1], list[..|list| - 1], n, entry);
      ReceivedOneMore(owners, list, n, entry);
    }
  }

  lemma OwnedIffSubscribed(members: map<Bytes, Member>, list: seq<TopicPartition>, i: nat)
    requires i < |list|
    ensures var owner := Owner(MemberOrder(members), members, list, i);
      && (owner.Some? ==> owner.value < |MemberOrder(members)|)
      && (owner.Some? <==> exists id :: Subscribes(members, id, list[i].0))
  {
    var order := MemberOrder(members);
    OwnerSubscribes(order, members, list, i);
    if id :| Subscribes(members, id, list[i].0) {
      assert id in order;
      var p :| 0 <= p < |order| && order[p] == id;
    }
  }

  /** Conservation: together the members receive every entry that has a subscriber exactly once, and nothing else. */
  lemma AssignmentConservesEntries(members: map<Bytes, Member>, list: seq<TopicPartition>, entry: TopicPartition)
    ensures var order := MemberOrder(members);
      var owners := Owners(order, members, list);
      && Received(owners, list, |order|, entry) == multiset(Owned(owners, list))[entry]
      && (forall i :: 0 <= i < |list| ==> (owners[i].Some? <==> exists id :: Subscribes(members, id, list[i].0)))
  {
    var order := MemberOrder(members);
    var owners := Owners(order, members, list);
    forall i | 0 <= i < |list|
      ensures owners[i].Some? ==> owners[i].value < |order|
      ensures owners[i].Some? <==> exists id :: Subscribes(members, id, list[i].0)
    {
      OwnedIffSubscribed(members, list, i);
    }
    DealConservesEntries(owners, list, |order|, entry);
  }

  /** These positions pick the share out of the list, from front to back. */
  ghost predicate PickedInOrder(share: seq<TopicPartition>, list: seq<TopicPartition>, picks: seq<nat>) {
    && |picks| == |share|
    && (forall i, j :: 0 <= i < j < |picks| ==> picks[i] < picks[j])
    && (forall i :: 0 <= i < |picks| ==> picks[i] < |list| && share[i] == list[picks[i]])
  }

  lemma {:induction false} GivenIsPicked(owners: seq<Option<nat>>, list: seq<TopicPartition>, m: nat)
    returns (picks: seq<nat>)
    requires |owners| == |list|
    ensures PickedInOrder(Given(owners, list, m), list, picks)
    ensures forall i :: 0 <= i < |list| ==> (i in picks <==> owners[i] == Some(m))
  {
    picks := [];
    if list != [] {
      var last := |list| - 1;
      picks := GivenIsPicked(owners[..last], list[..last], m);
      if owners[last] == Some(m) {
        picks := picks + [last];
      }
    }
  }

  /** Every member receives its entries in the order of the list: its share is the subsequence at the positions it
      owns. */
  lemma {:induction false} SharesKeepListOrder(members: map<Bytes, Member>, list: seq<TopicPartition>, m: nat)
    returns (picks: seq<nat>)
    requires m < |MemberOrder(members)|
    ensures var share := Assignments(members, list)[m];
            && share.memberId == MemberOrder(members)[m]
            && PickedInOrder(share.partitions, list, picks)
            && forall i :: 0 <= i < |list| ==>
                 (i in picks <==> Owner(MemberOrder(members), members, list, i) == Some(m))
  {
    picks := GivenIsPicked(Owners(MemberOrder(members), members, list), list, m);
  }

  lemma {:induction false} GivenIsOwned(owners: seq<Option<nat>>, list: seq<TopicPartition>, m: nat,
                                        members: map<Bytes, Member>, id: Bytes)
    requires |owners| == |list|
    requires forall i :: 0 <= i < |list| && owners[i] == Some(m) ==> Subscribes(members, id, list[i].0)
    ensures forall k :: 0 <= k < |Given(owners, list, m)| ==> Subscribes(members, id, Given(owners, list, m)[k].0)
    decreases |list|
  {
    if list != [] {
      var last := |list| - 1;
      GivenIsOwned(owners[..last], list[..last], m, members, id);
    }
  }

  /** Everything a member is given is of a topic the member subscribes to. */
  lemma GivenIsSubscribed(order: seq<Bytes>, members: map<Bytes, Member>, list: seq<TopicPartition>, m: nat)
    requires m < |order|
    ensures forall k :: 0 <= k < |Given(Owners(order, members, list), list, m)| ==>
      Subscribes(members, order[m], Given(Owners(order, members, list), list, m)[k].0)
  {
    var owners := Owners(order, members, list);
    forall i | 0 <= i < |list| && owners[i] == Some(m) ensures Subscribes(members, order[m], list[i].0) {
      OwnerSubscribes(order, members, list, i);
    }
    GivenIsOwned(owners, list, m, members, order[m]);
  }

  // ---------------------------------------------------------------- residues in a range

  /** How many of the `n` numbers from `a` on leave remainder `r` modulo `e`. */
  function Hits(a: nat, n: nat, e: nat, r: nat): nat
    requires e > 0
  {
    if n == 0 then 0 else Hits(a, n - 1, e, r) + if (a + n - 1) % e == r then 1 else 0
  }

  lemma {:induction false} HitsSplit(a: nat, m: nat, n: nat, e: nat, r: nat)
    requires e > 0
    ensures Hits(a, m + n, e, r) == Hits(a, m, e, r) + Hits(a + m, n, e, r)
  {
    if n > 0 {
      HitsSplit(a, m, n - 1, e, r);
      assert a + (m + n) - 1 == (a + m) + n - 1;
    }
  }

  lemma {:induction false} HitsFromZero(n: nat, e: nat, r: nat)
    requires n <= e && r < e
    ensures Hits(0, n, e, r) == if r < n then 1 else 0
  {
    if n > 0 {
      HitsFromZero(n - 1, e, r);
      SmallRemainder(n - 1, e);
    }
  }

  lemma SmallRemainder(x: nat, e: nat)
    requires x < e
    ensures x % e == x
  {
  }

  lemma RemainderPeriodic(a: nat, e: nat)
    requires e > 0
    ensures (a + e) % e == a % e
  {
    var q, r := a / e, a % e;
    assert a + e == (q + 1) * e + r;
    Bits.RemainderUnique(a + e, e, q + 1, r);
  }

  /** Any `e` consecutive numbers hit every remainder once. */
  lemma {:induction false} HitsFullCycle(a: nat, e: nat, r: nat)
    requires r < e
    ensures Hits(a, e, e, r) == 1
  {
    if a == 0 {
      HitsFromZero(e, e, r);
    } else {
      HitsFullCycle(a - 1, e, r);
      HitsSplit(a - 1, 1, e, e, r);
      HitsSplit(a - 1, e, 1, e, r);
      RemainderPeriodic(a - 1, e);
      assert Hits(a - 1, 1, e, r) == Hits(a - 1 + e, 1, e, r);
    }
  }

  lemma {:induction false} HitsBalanced(a: nat, n: nat, e: nat, r: nat, s: nat)
    requires r < e && s < e
    ensures -1 <= Hits(a, n, e, r) - Hits(a, n, e, s) <= 1
  {
    if n < e {
      HitsSplit(a, n, e - n, e, r);
      HitsSplit(a, n, e - n, e, s);
      HitsFullCycle(a, e, r);
      HitsFullCycle(a, e, s);
    } else {
      HitsBalanced(a, n - e, e, r, s);
      HitsSplit(a, n - e, e, e, r);
      HitsSplit(a, n - e, e, e, s);
      HitsFullCycle(a + (n - e), e, r);
      HitsFullCycle(a + (n - e), e, s);
    }
  }

  // ---------------------------------------------------------------- balanced shares

  /** How many entries belong to one of the topics. */
  function CountTopics(entries: seq<TopicPartition>, topics: set<Bytes>): nat {
    if entries == [] then 0
    else CountTopics(entries[..|entries| - 1], topics) + if entries[|entries| - 1].0 in topics then 1 else 0
  }

  /** The entries of the given topics fill the positions from `a` to `b` and are owned in turn by the eligible
      positions. */
  ghost predicate OneBlock(owners: seq<Option<nat>>, list: seq<TopicPartition>, topics: set<Bytes>, a: nat, b: nat,
                           eligible: seq<nat>)
  {
    && |owners| == |list| && a <= b <= |list| && eligible != []
    && (forall i :: 0 <= i < |list| ==> (list[i].0 in topics <==> a <= i < b))
    && (forall i :: a <= i < b ==> owners[i] == Some(eligible[i % |eligible|]))
  }

  predicate StrictlyAscending(positions: seq<nat>) {
    forall j, k :: 0 <= j < k < |positions| ==> positions[j] < positions[k]
  }

  lemma CountTopicsPush(entries: seq<TopicPartition>, entry: TopicPartition, topics: set<Bytes>)
    ensures CountTopics(entries + [entry], topics) == CountTopics(entries, topics) + if entry.0 in topics then 1 else 0
  {
    assert (entries + [entry])[..|entries|] == entries;
  }

  lemma SamePosition(eligible: seq<nat>, r: nat, s: nat)
    requires StrictlyAscending(eligible) && r < |eligible| && s < |eligible|
    ensures eligible[r] == eligible[s] <==> r == s
  {
    if r < s {
      assert eligible[r] < eligible[s];
    } else if s < r {
      assert eligible[s] < eligible[r];
    }
  }

  /** How many positions in `[a, a + n)` are owned by `m`. */
  function OwnedIn(owners: seq<Option<nat>>, a: nat, n: nat, m: nat): nat
    requires a + n <= |owners|
  {
    if n == 0 then 0 else OwnedIn(owners, a, n - 1, m) + if owners[a + n - 1] == Some(m) then 1 else 0
  }

  lemma {:induction false} GivenCountsOwned(owners: seq<Option<nat>>, list: seq<TopicPartition>, topics: set<Bytes>,
                                            a: nat, b: nat, m: nat, len: nat)
    requires |owners| == |list| && a <= b <= |list| && len <= |list|
    requires forall i :: 0 <= i < |list| ==> (list[i].0 in topics <==> a <= i < b)
    ensures CountTopics(Given(owners[..len], list[..len], m), topics)
      == if len <= a then 0 else OwnedIn(owners, a, (if len < b then len else b) - a, m)
  {
    if len > 0 {
      GivenCountsOwned(owners, list, topics, a, b, m, len - 1);
      assert owners[..len][..len - 1] == owners[..len - 1] && list[..len][..len - 1] == list[..len - 1];
      CountTopicsPush(Given(owners[..len - 1], list[..len - 1], m), list[len - 1], topics);
    }
  }

  lemma {:induction false} OwnedInCountsHits(owners: seq<Option<nat>>, a: nat, n: nat, eligible: seq<nat>, r: nat)
    requires a + n <= |owners| && StrictlyAscending(eligible) && r < |eligible|
    requires forall i :: a <= i < a + n ==> owners[i] == Some(eligible[i % |eligible|])
    ensures OwnedIn(owners, a, n, eligible[r]) == Hits(a, n, |eligible|, r)
  {
    if n > 0 {
      OwnedInCountsHits(owners, a, n - 1, eligible, r);
      SamePosition(eligible, (a + n - 1) % |eligible|, r);
    }
  }

  lemma GivenCountsHits(owners: seq<Option<nat>>, list: seq<TopicPartition>, topics: set<Bytes>, a: nat, b: nat,
                        eligible: seq<nat>, r: nat)
    requires OneBlock(owners, list, topics, a, b, eligible) && StrictlyAscending(eligible) && r < |eligible|
    ensures CountTopics(Given(owners, list, eligible[r]), topics) == Hits(a, b - a, |eligible|, r)
  {
    assert list[..|list|] == list && owners[..|list|] == owners;
    GivenCountsOwned(owners, list, topics, a, b, eligible[r], |list|);
    OwnedInCountsHits(owners, a, b - a, eligible, r);
  }

  /** Within one block of entries any two eligible members differ by at most one. */
  lemma BlockIsBalanced(owners: seq<Option<nat>>, list: seq<TopicPartition>, topics: set<Bytes>, a: nat, b: nat,
                        eligible: seq<nat>, m: nat, n: nat)
    requires OneBlock(owners, list, topics, a, b, eligible) && StrictlyAscending(eligible)
    requires m in eligible && n in eligible
    ensures -1 <= CountTopics(Given(owners, list, m), topics) - CountTopics(Given(owners, list, n), topics) <= 1
  {
    var r :| 0 <= r < |eligible| && eligible[r] == m;
    var s :| 0 <= s < |eligible| && eligible[s] == n;
    GivenCountsHits(owners, list, topics, a, b, eligible, r);
    GivenCountsHits(owners, list, topics, a, b, eligible, s);
    HitsBalanced(a, b - a, |eligible|, r, s);
  }

  lemma {:induction false} OwnerInTurn(order: seq<Bytes>, members: map<Bytes, Member>, list: seq<TopicPartition>,
                                       i: nat)
    requires i < |list| && Eligible(order, members, list[i].0) != []
    ensures var eligible := Eligible(order, members, list[i].0);
      Owners(order, members, list)[i] == Some(eligible[i % |eligible|])
  {
  }

  lemma {:induction false} OwnersFormBlock(order: seq<Bytes>, members: map<Bytes, Member>, list: seq<TopicPartition>,
                                           topics: set<Bytes>, a: nat, b: nat, eligible: seq<nat>)
    requires a <= b <= |list| && eligible != []
    requires forall i :: 0 <= i < |list| ==> (list[i].0 in topics <==> a <= i < b)
    requires forall i :: a <= i < b ==> Eligible(order, members, list[i].0) == eligible
    ensures OneBlock(Owners(order, members, list), list, topics, a, b, eligible)
  {
    var owners := Owners(order, members, list);
    forall i | a <= i < b ensures owners[i] == Some(eligible[i % |eligible|]) {
      OwnerInTurn(order, members, list, i);
    }
  }

  // ---------------------------------------------------------------- the list the broker builds

  function PartitionsOf(topic: Bytes, count: nat): seq<TopicPartition> {
    seq(count, p requires 0 <= p < count => (topic, p))
  }

  function ListTopics(names: seq<Bytes>, catalog: map<Bytes, nat>): seq<TopicPartition>
    requires forall t :: t in names ==> t in catalog
  {
    if names == [] then [] else PartitionsOf(names[0], catalog[names[0]]) + ListTopics(names[1..], catalog)
  }

  /** Every partition of every topic, topics in name order, as the broker passes it to a join. */
  function CatalogList(catalog: map<Bytes, nat>): seq<TopicPartition> {
    BytesOrdered();
    ListTopics(Ascending(catalog.Keys, BytesLess), catalog)
  }

  ghost predicate TopicBlock(list: seq<TopicPartition>, topic: Bytes, a: nat, count: nat) {
    a + count <= |list| && forall i :: 0 <= i < |list| ==> (list[i].0 == topic <==> a <= i < a + count)
  }

  lemma {:induction false} ForeignTopicAbsent(names: seq<Bytes>, catalog: map<Bytes, nat>, topic: Bytes)
    requires forall t :: t in names ==> t in catalog
    requires topic !in names
    ensures forall i :: 0 <= i < |ListTopics(names, catalog)| ==> ListTopics(names, catalog)[i].0 != topic
  {
    if names != [] {
      ForeignTopicAbsent(names[1..], catalog, topic);
    }
  }

  lemma {:induction false} TopicFillsBlock(names: seq<Bytes>, catalog: map<Bytes, nat>, topic: Bytes) returns (a: nat)
    requires forall t :: t in names ==> t in catalog
    requires forall i, j :: 0 <= i < j < |names| ==> names[i] != names[j]
    requires topic in names
    ensures TopicBlock(ListTopics(names, catalog), topic, a, catalog[topic])
  {
    var head, tail := PartitionsOf(names[0], catalog[names[0]]), ListTopics(names[1..], catalog);
    if names[0] == topic {
      ForeignTopicAbsent(names[1..], catalog, topic);
      a := 0;
    } else {
      var a' := TopicFillsBlock(names[1..], catalog, topic);
      a := |head| + a';
      var list := ListTopics(names, catalog);
      forall i | 0 <= i < |list| ensures list[i].0 == topic <==> a <= i < a + catalog[topic] {
        if i < |head| {
          assert list[i] == head[i];
        } else {
          assert list[i] == tail[i - |head|];
        }
      }
    }
  }

  lemma CatalogBlock(catalog: map<Bytes, nat>, topic: Bytes) returns (a: nat)
    requires topic in catalog
    ensures TopicBlock(CatalogList(catalog), topic, a, catalog[topic])
  {
    BytesOrdered();
    AscendingHasNoRepeats(catalog.Keys, BytesLess);
    a := TopicFillsBlock(Ascending(catalog.Keys, BytesLess), catalog, topic);
  }

  lemma {:induction false} AssignedIsGiven(members: map<Bytes, Member>, list: seq<TopicPartition>, m: nat)
    requires m < |MemberOrder(members)|
    ensures Assignments(members, list)[m].partitions == Given(Owners(MemberOrder(members), members, list), list, m)
  {
  }

  /** On the broker's list any two subscribers of a topic differ by at most one partition of it. */
  lemma {:induction false} TopicIsBalanced(members: map<Bytes, Member>, catalog: map<Bytes, nat>, topic: Bytes, m: nat,
                                           n: nat)
    requires topic in catalog
    requires m < |MemberOrder(members)| && Subscribes(members, MemberOrder(members)[m], topic)
    requires n < |MemberOrder(members)| && Subscribes(members, MemberOrder(members)[n], topic)
    ensures var a := Assignments(members, CatalogList(catalog));
      -1 <= CountTopics(a[m].partitions, {topic}) - CountTopics(a[n].partitions, {topic}) <= 1
  {
    var order, list := MemberOrder(members), CatalogList(catalog);
    var a := CatalogBlock(catalog, topic);
    var eligible := Eligible(order, members, topic);
    assert m in eligible && n in eligible;
    OwnersFormBlock(order, members, list, {topic}, a, a + catalog[topic], eligible);
    BlockIsBalanced(Owners(order, members, list), list, {topic}, a, a + catalog[topic], eligible, m, n);
    AssignedIsGiven(members, list, m);
    AssignedIsGiven(members, list, n);
  }

  /** If all members subscribe to all listed topics, the positions of all members are eligible for every entry. */
  lemma {:induction false} EveryoneIsEligible(order: seq<Bytes>, members: map<Bytes, Member>, topic: Bytes)
    requires forall p :: 0 <= p < |order| ==> Subscribes(members, order[p], topic)
    ensures Eligible(order, members, topic) == seq(|order|, p => p)
  {
    if order != [] {
      var last := |order| - 1;
      EveryoneIsEligible(order[..last], members, topic);
      assert seq(|order|, p => p) == seq(last, p => p) + [last];
    }
  }

  lemma {:induction false} GivenComesFromList(owners: seq<Option<nat>>, list: seq<TopicPartition>, m: nat,
                                              topics: set<Bytes>)
    requires |owners| == |list|
    requires forall i :: 0 <= i < |list| ==> list[i].0 in topics
    ensures CountTopics(Given(owners, list, m), topics) == |Given(owners, list, m)|
  {
    if list != [] {
      GivenComesFromList(owners[..|list| - 1], list[..|list| - 1], m, topics);
      CountTopicsPush(Given(owners[..|list| - 1], list[..|list| - 1], m), list[|list| - 1], topics);
    }
  }

  lemma AllEntriesOpenToEveryone(order: seq<Bytes>, members: map<Bytes, Member>, list: seq<TopicPartition>,
                                 everyone: seq<nat>)
    requires everyone == seq(|order|, p => p)
    requires forall p, i :: 0 <= p < |order| && 0 <= i < |list| ==> Subscribes(members, order[p], list[i].0)
    ensures forall i :: 0 <= i < |list| ==> Eligible(order, members, list[i].0) == everyone
  {
    forall i | 0 <= i < |list| ensures Eligible(order, members, list[i].0) == everyone {
      EveryoneIsEligible(order, members, list[i].0);
    }
  }

  /** If all members subscribe to all topics of the list, any two of them differ by at most one entry overall. */
  lemma FullSubscriptionIsBalanced(members: map<Bytes, Member>, list: seq<TopicPartition>, m: nat, n: nat)
    requires forall id, i :: id in members && 0 <= i < |list| ==> Subscribes(members, id, list[i].0)
    requires m < |MemberOrder(members)| && n < |MemberOrder(members)|
    ensures var a := Assignments(members, list); -1 <= |a[m].partitions| - |a[n].partitions| <= 1
  {
    var order := MemberOrder(members);
    var topics := set i | 0 <= i < |list| :: list[i].0;
    var everyone := seq(|order|, p => p);
    AllEntriesOpenToEveryone(order, members, list, everyone);
    assert everyone[m] == m && everyone[n] == n;
    var owners := Owners(order, members, list);
    OwnersFormBlock(order, members, list, topics, 0, |list|, everyone);
    BlockIsBalanced(owners, list, topics, 0, |list|, everyone, m, n);
    GivenComesFromList(owners, list, m, topics);
    GivenComesFromList(owners, list, n, topics);
  }
}
