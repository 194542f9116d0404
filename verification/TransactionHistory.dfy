/** The transaction coordinator over whole histories of requests: identities, fencing and enlistment. */
module TransactionHistory {
  import opened Records
  import opened Order
  import opened Transactions

  function After(h: seq<Request>): Coordinator {
    if h == [] then NewCoordinator else Serve(After(h[..|h| - 1]), h[|h| - 1]).0
  }

  /** What the `i`-th request of the history was answered. */
  function AnswerAt(h: seq<Request>, i: nat): Answer
    requires i < |h|
  {
    Serve(After(h[..i]), h[i]).1
  }

  lemma AfterPush(h: seq<Request>, r: Request)
    ensures After(h + [r]) == Serve(After(h), r).0
  {
    assert (h + [r])[..|h|] == h;
  }

  /** A refused request leaves no trace. */
  lemma RefusedLeavesStateUnchanged(c: Coordinator, request: Request)
    requires Serve(c, request).1.Err?
    ensures Serve(c, request).0 == c
  {
  }

  /** A request touches no transactional id but its own, and never takes one away. */
  lemma ServeTouchesOnlyItsOwnId(c: Coordinator, request: Request, other: Bytes)
    requires other != request.tid
    ensures other in Serve(c, request).0.transactions <==> other in c.transactions
    ensures other in c.transactions ==> Serve(c, request).0.transactions[other] == c.transactions[other]
  {
  }

  // ---------------------------------------------------------------- status and partition set

  ghost predicate StatusMatchesPartitions(c: Coordinator) {
    forall tid :: tid in c.transactions ==>
      var t := c.transactions[tid];
      && (t.status.Empty? || t.status.Ongoing?)
      && (t.status.Ongoing? <==> t.partitions != {})
      && (t.status.Empty? ==> t.offsets == [])
  }

  lemma ServeKeepsStatus(c: Coordinator, request: Request)
    requires StatusMatchesPartitions(c)
    ensures StatusMatchesPartitions(Serve(c, request).0)
  {
  }

  /** Between calls a transaction is Empty or Ongoing, and Ongoing exactly when it has enlisted a partition. */
  lemma {:induction false} StatusOverEveryHistory(h: seq<Request>)
    ensures StatusMatchesPartitions(After(h))
  {
    if h != [] {
      StatusOverEveryHistory(h[..|h| - 1]);
      ServeKeepsStatus(After(h[..|h| - 1]), h[|h| - 1]);
    }
  }

  // ---------------------------------------------------------------- identities

  function Inits(h: seq<Request>, tid: Bytes): nat {
    if h == [] then 0
    else Inits(h[..|h| - 1], tid) + if h[|h| - 1] == InitProducer(tid) then 1 else 0
  }

  lemma {:induction false} InitsConcat(g: seq<Request>, h: seq<Request>, tid: Bytes)
    ensures Inits(g + h, tid) == Inits(g, tid) + Inits(h, tid)
  {
    if h == [] {
      assert g + h == g;
    } else {
      assert (g + h)[..|g + h| - 1] == g + h[..|h| - 1];
      InitsConcat(g, h[..|h| - 1], tid);
    }
  }

  /** An id is known exactly when it was initialised, and its epoch counts the initialisations, saturating at i16. */
  lemma {:induction false} EpochCountsInits(h: seq<Request>, tid: Bytes)
    requires tid != []
    ensures tid in After(h).transactions <==> Inits(h, tid) > 0
    ensures Inits(h, tid) > 0 ==> After(h).transactions[tid].identity.epoch == Saturating(Inits(h, tid) - 1, I16_MAX)
  {
    if h != [] {
      var before, last := h[..|h| - 1], h[|h| - 1];
      EpochCountsInits(before, tid);
      if last.tid != tid {
        ServeTouchesOnlyItsOwnId(After(before), last, tid);
      }
    }
  }

  /** The producer id of a transactional id never changes. */
  lemma {:induction false} ProducerIdIsStable(g: seq<Request>, h: seq<Request>, tid: Bytes)
    requires tid in After(g).transactions
    ensures tid in After(g + h).transactions
    ensures After(g + h).transactions[tid].identity.id == After(g).transactions[tid].identity.id
  {
    if h == [] {
      assert g + h == g;
    } else {
      var before, last := h[..|h| - 1], h[|h| - 1];
      ProducerIdIsStable(g, before, tid);
      assert g + h == (g + before) + [last];
      AfterPush(g + before, last);
      if last.tid != tid {
        ServeTouchesOnlyItsOwnId(After(g + before), last, tid);
      }
    }
  }

  /** The k-th initialisation of an id is answered with its one producer id and epoch min(k - 1, 32767). */
  lemma InitAnswer(h: seq<Request>, i: nat, tid: Bytes)
    requires i < |h| && h[i] == InitProducer(tid) && tid != []
    ensures AnswerAt(h, i).Ok? && AnswerAt(h, i).value.Producer?
    ensures AnswerAt(h, i).value.identity.epoch == Saturating(Inits(h[..i + 1], tid) - 1, I16_MAX)
    ensures tid in After(h).transactions && AnswerAt(h, i).value.identity.id == After(h).transactions[tid].identity.id
  {
    var upTo := h[..i + 1];
    assert upTo[..i] == h[..i];
    EpochCountsInits(upTo, tid);
    assert h == upTo + h[i + 1..];
    ProducerIdIsStable(upTo, h[i + 1..], tid);
  }

  /** An issued identity is fenced exactly when its id was initialised again since and its epoch was not yet
      saturated; at epoch 32767 a re-initialisation fences nobody. */
  lemma {:induction false} FencedExactly(h: seq<Request>, i: nat, tid: Bytes, request: Request)
    requires i < |h| && h[i] == InitProducer(tid) && tid != []
    requires !request.InitProducer? && !Malformed(request) && request.tid == tid
    requires AnswerAt(h, i).Ok? && AnswerAt(h, i).value.Producer?
    requires request.producer == AnswerAt(h, i).value.identity
    ensures Serve(After(h), request).1 == Err(ProducerFenced)
      <==> Inits(h[i + 1..], tid) > 0 && request.producer.epoch < I16_MAX
  {
    InitAnswer(h, i, tid);
    assert Inits(h, tid) == Inits(h[..i + 1], tid) + Inits(h[i + 1..], tid) by {
      assert h == h[..i + 1] + h[i + 1..];
      InitsConcat(h[..i + 1], h[i + 1..], tid);
    }
    EpochCountsInits(h, tid);
    OnlyTheCurrentIdentityIsAccepted(After(h), request);
    assert request.producer != After(h).transactions[tid].identity
      <==> request.producer.epoch != After(h).transactions[tid].identity.epoch;
  }

  /** At every moment exactly one identity of a known id is not fenced. */
  lemma OnlyTheCurrentIdentityIsAccepted(c: Coordinator, request: Request)
    requires !request.InitProducer? && !Malformed(request) && request.tid in c.transactions
    ensures Serve(c, request).1 == Err(ProducerFenced) <==> request.producer != c.transactions[request.tid].identity
  {
  }

  // ---------------------------------------------------------------- distinct producer ids

  ghost predicate DistinctIds(c: Coordinator) {
    forall s, t :: s in c.transactions && t in c.transactions && s != t ==>
      c.transactions[s].identity.id != c.transactions[t].identity.id
  }

  /** Ids are handed out in sequence; only the i64 ceiling is ever given twice. */
  ghost predicate IdsInSequence(c: Coordinator) {
    var n := |c.transactions|;
    && c.nextId == Saturating(n + 1, I64_MAX)
    && (forall t :: t in c.transactions ==> 1 <= c.transactions[t].identity.id <= Saturating(n, I64_MAX))
    && (n <= I64_MAX ==> DistinctIds(c))
    && (n >= I64_MAX ==> exists t :: t in c.transactions && c.transactions[t].identity.id == I64_MAX)
    && (n > I64_MAX ==> !DistinctIds(c))
  }

  lemma InitSize(c: Coordinator, tid: Bytes)
    requires tid != []
    ensures |Init(c, tid).0.transactions| == |c.transactions| + if tid in c.transactions then 0 else 1
  {
    assert Init(c, tid).0.transactions.Keys == c.transactions.Keys + {tid};
    assert Init(c, tid).0.transactions.Keys - {tid} == c.transactions.Keys - {tid};
  }

  lemma KnownInitKeepsSequence(c: Coordinator, tid: Bytes)
    requires IdsInSequence(c) && tid in c.transactions
    ensures IdsInSequence(Init(c, tid).0)
  {
    if tid != [] {
      InitSize(c, tid);
      SameIdsKeepSequence(c, Init(c, tid).0);
    }
  }

  lemma SameIdsKeepSequence(c: Coordinator, d: Coordinator)
    requires IdsInSequence(c)
    requires d.nextId == c.nextId && d.transactions.Keys == c.transactions.Keys
    requires forall t :: t in c.transactions ==> d.transactions[t].identity.id == c.transactions[t].identity.id
    ensures IdsInSequence(d)
  {
    assert |d.transactions| == |d.transactions.Keys| == |c.transactions|;
    if |c.transactions| >= I64_MAX {
      var t :| t in c.transactions && c.transactions[t].identity.id == I64_MAX;
      assert t in d.transactions && d.transactions[t].identity.id == I64_MAX;
    }
    if |c.transactions| > I64_MAX {
      var s, t :| s in c.transactions && t in c.transactions && s != t
        && c.transactions[s].identity.id == c.transactions[t].identity.id;
      assert s in d.transactions && t in d.transactions
             && d.transactions[s].identity.id == d.transactions[t].identity.id;
    }
  }

  lemma NewInitKeepsSequence(c: Coordinator, tid: Bytes)
    requires IdsInSequence(c) && tid !in c.transactions && tid != []
    ensures IdsInSequence(Init(c, tid).0)
  {
    var d := Init(c, tid).0;
    InitSize(c, tid);
    var n := |c.transactions|;
    assert d.transactions[tid].identity.id == c.nextId;
    if n >= I64_MAX {
      var t :| t in c.transactions && c.transactions[t].identity.id == I64_MAX;
      assert t != tid && d.transactions[t].identity.id == d.transactions[tid].identity.id;
    }
  }

  lemma ServeKeepsSequence(c: Coordinator, request: Request)
    requires IdsInSequence(c)
    ensures IdsInSequence(Serve(c, request).0)
  {
    if request.InitProducer? {
      if request.tid in c.transactions {
        KnownInitKeepsSequence(c, request.tid);
      } else if request.tid != [] {
        NewInitKeepsSequence(c, request.tid);
      }
    } else if Serve(c, request).1.Ok? {
      SameIdsKeepSequence(c, Serve(c, request).0);
    }
  }

  /** Over every history, distinct transactional ids have distinct producer ids exactly as long as no more than
      2^63 - 1 of them have been initialised. */
  lemma {:induction false} IdsOverEveryHistory(h: seq<Request>)
    ensures IdsInSequence(After(h))
    ensures DistinctIds(After(h)) <==> |After(h).transactions| <= I64_MAX
  {
    if h != [] {
      IdsOverEveryHistory(h[..|h| - 1]);
      ServeKeepsSequence(After(h[..|h| - 1]), h[|h| - 1]);
    }
  }

  // ---------------------------------------------------------------- enlistment

  predicate AcceptedAt(h: seq<Request>, i: nat)
    requires i < |h|
  {
    AnswerAt(h, i).Ok?
  }

  /** Whether request `i` opened or closed the transaction of `tid`. */
  predicate BoundaryAt(h: seq<Request>, i: nat, tid: Bytes)
    requires i < |h|
  {
    h[i].tid == tid && (h[i].InitProducer? || h[i].EndTransaction?) && AcceptedAt(h, i)
  }

  /** The position just after the last boundary of `tid`. */
  function SinceBoundary(h: seq<Request>, tid: Bytes): (start: nat)
    ensures start <= |h|
  {
    if h == [] then 0
    else if BoundaryAt(h, |h| - 1, tid) then |h|
    else SinceBoundary(h[..|h| - 1], tid)
  }

  /** The partitions enlisted for `tid` from position `start` on. */
  function EnlistedPartitions(h: seq<Request>, start: nat, tid: Bytes): set<TopicPartition> {
    if |h| <= start then {}
    else
      var last := h[|h| - 1];
      EnlistedPartitions(h[..|h| - 1], start, tid)
      + if last.AddPartition? && last.tid == tid && AcceptedAt(h, |h| - 1) then {last.partition} else {}
  }

  /** The offsets enlisted for `tid` from position `start` on, in request order. */
  function EnlistedOffsets(h: seq<Request>, start: nat, tid: Bytes): seq<TransactionOffset> {
    if |h| <= start then []
    else
      var last := h[|h| - 1];
      EnlistedOffsets(h[..|h| - 1], start, tid)
      + if last.AddOffset? && last.tid == tid && AcceptedAt(h, |h| - 1) then [last.offset] else []
  }

  /** A known transaction holds exactly what was enlisted since its last boundary. */
  lemma {:induction false} TransactionHoldsWhatWasEnlisted(h: seq<Request>, tid: Bytes)
    requires tid in After(h).transactions
    ensures var t := After(h).transactions[tid];
      var start := SinceBoundary(h, tid);
      t.partitions == EnlistedPartitions(h, start, tid) && t.offsets == EnlistedOffsets(h, start, tid)
  {
    var before, last := h[..|h| - 1], h[|h| - 1];
    var c := After(before);
    assert AcceptedAt(h, |h| - 1) <==> Serve(c, last).1.Ok?;
    if BoundaryAt(h, |h| - 1, tid) {
      assert EnlistedPartitions(h, |h|, tid) == {};
    } else {
      assert tid in c.transactions by {
        if last.tid != tid {
          ServeTouchesOnlyItsOwnId(c, last, tid);
        }
      }
      TransactionHoldsWhatWasEnlisted(before, tid);
      if last.tid != tid {
        ServeTouchesOnlyItsOwnId(c, last, tid);
      }
    }
  }

  /** A successful end hands back exactly the partitions and the offsets enlisted since the last init or end;
      it succeeds exactly for the current identity of a transaction that has enlisted a partition. */
  lemma EndReturnsWhatWasEnlisted(h: seq<Request>, tid: Bytes, producer: ProducerIdentity, commit: bool)
    ensures var start := SinceBoundary(h, tid);
      var answer := Serve(After(h), EndTransaction(tid, producer, commit)).1;
      && (answer.Ok? <==>
            && tid in After(h).transactions && After(h).transactions[tid].identity == producer
            && EnlistedPartitions(h, start, tid) != {})
      && (answer.Ok? ==>
            && answer.value.Completed?
            && (forall p :: p in answer.value.completion.partitions <==> p in EnlistedPartitions(h, start, tid))
            && SortedBy(answer.value.completion.partitions, PartitionLess)
            && answer.value.completion.offsets == EnlistedOffsets(h, start, tid))
  {
    StatusOverEveryHistory(h);
    if tid in After(h).transactions {
      TransactionHoldsWhatWasEnlisted(h, tid);
    }
  }
}
