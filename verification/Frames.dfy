/** Rebuilding length-prefixed frames from whatever pieces a connection delivers them in. */
module Frames {
  import opened Records
  import opened Bits
  import RecordBatch

  const MAX_FRAME_LEN: nat := RecordBatch.MAX_FRAME_LEN

  // ---------------------------------------------------------------- the stream as frames

  /** The length a buffer announces. */
  function Announced(s: Bytes): int
    requires |s| >= 4
  {
    FieldI32(s[..4])
  }

  predicate BadLength(s: Bytes) {
    |s| >= 4 && (Announced(s) <= 0 || Announced(s) > MAX_FRAME_LEN)
  }

  /** A whole frame stands at the front. */
  predicate Complete(s: Bytes) {
    |s| >= 4 && !BadLength(s) && 4 + Announced(s) <= |s|
  }

  /** The frames of a stream, the bytes behind the last of them, and whether those bytes announce a bad length. */
  datatype Split = Split(frames: seq<Bytes>, rest: Bytes) {
    predicate Malformed() {
      BadLength(rest)
    }
  }

  function SplitFrames(s: Bytes): Split
    decreases |s|
  {
    if Complete(s) then
      var n := 4 + Announced(s);
      var split := SplitFrames(s[n..]);
      Split([s[..n]] + split.frames, split.rest)
    else
      Split([], s)
  }

  function Joined(frames: seq<Bytes>): Bytes {
    if frames == [] then [] else frames[0] + Joined(frames[1..])
  }

  /** Exactly one frame and nothing else. */
  predicate IsFrame(s: Bytes) {
    Complete(s) && |s| == 4 + Announced(s)
  }

  lemma FrontComplete(s: Bytes, t: Bytes)
    requires Complete(s)
    ensures Complete(s + t) && Announced(s + t) == Announced(s)
  {
    assert (s + t)[..4] == s[..4];
  }

  lemma FrontIsFrame(s: Bytes)
    requires Complete(s)
    ensures IsFrame(s[..4 + Announced(s)])
  {
    assert s[..4 + Announced(s)][..4] == s[..4];
  }

  lemma JoinedNext(frame: Bytes, frames: seq<Bytes>, rest: Bytes)
    ensures Joined([frame] + frames) + rest == frame + (Joined(frames) + rest)
  {
    assert ([frame] + frames)[1..] == frames;
    ConcatAssociative(frame, Joined(frames), rest);
  }

  /** Splitting loses nothing, invents nothing and leaves no whole frame behind. */
  lemma {:induction false} SplitConserves(s: Bytes)
    ensures var split := SplitFrames(s);
            && Joined(split.frames) + split.rest == s
            && (forall i :: 0 <= i < |split.frames| ==> IsFrame(split.frames[i]))
            && !Complete(split.rest)
    decreases |s|
  {
    if Complete(s) {
      var n := 4 + Announced(s);
      var split := SplitFrames(s[n..]);
      SplitConserves(s[n..]);
      FrontIsFrame(s);
      JoinedNext(s[..n], split.frames, split.rest);
      assert s == s[..n] + s[n..];
    }
  }

  /** Frames sent back to back come out as they went in: the split is the only one possible. */
  lemma {:induction false} SplitUnique(frames: seq<Bytes>, rest: Bytes)
    requires forall i :: 0 <= i < |frames| ==> IsFrame(frames[i])
    requires !Complete(rest)
    ensures SplitFrames(Joined(frames) + rest) == Split(frames, rest)
  {
    if frames == [] {
      assert Joined(frames) + rest == rest;
    } else {
      var tail := Joined(frames[1..]) + rest;
      ConcatAssociative(frames[0], Joined(frames[1..]), rest);
      FrontComplete(frames[0], tail);
      SplitUnique(frames[1..], rest);
      assert (frames[0] + tail)[..|frames[0]|] == frames[0] && (frames[0] + tail)[|frames[0]|..] == tail;
    }
  }

  /** More bytes only add frames behind those found already, unless a bad length stopped the stream. */
  lemma {:induction false} SplitExtends(s: Bytes, t: Bytes)
    ensures var split, more := SplitFrames(s), SplitFrames(SplitFrames(s).rest + t);
            SplitFrames(s + t) == Split(split.frames + more.frames, more.rest)
    decreases |s|
  {
    if Complete(s) {
      var n := 4 + Announced(s);
      SplitExtends(s[n..], t);
      SplitBehind(s, t, n);
      var tail, more := SplitFrames(s[n..]), SplitFrames(SplitFrames(s).rest + t);
      ConcatAssociative([s[..n]], tail.frames, more.frames);
    } else {
      assert [] + SplitFrames(s + t).frames == SplitFrames(s + t).frames;
    }
  }

  lemma SplitBehind(s: Bytes, t: Bytes, n: nat)
    requires Complete(s) && n == 4 + Announced(s)
    ensures var split := SplitFrames(s[n..] + t);
            SplitFrames(s + t) == Split([s[..n]] + split.frames, split.rest)
  {
    FrontComplete(s, t);
    assert (s + t)[..n] == s[..n] && (s + t)[n..] == s[n..] + t;
  }

  lemma MalformedStays(s: Bytes, t: Bytes)
    requires SplitFrames(s).Malformed()
    ensures SplitFrames(s + t).frames == SplitFrames(s).frames && SplitFrames(s + t).Malformed()
  {
    var rest := SplitFrames(s).rest;
    SplitExtends(s, t);
    assert (rest + t)[..4] == rest[..4];
  }

  /** What waits in the buffer of an open connection is less than one frame of the largest size. */
  lemma BacklogBounded(s: Bytes)
    requires !SplitFrames(s).Malformed()
    ensures |SplitFrames(s).rest| < 4 + MAX_FRAME_LEN
  {
    SplitConserves(s);
  }

  // ---------------------------------------------------------------- what reaches the engine

  predicate AllAnswered(count: nat, answered: nat -> bool) {
    forall i :: 0 <= i < count ==> answered(i)
  }

  /** How many of `count` frames are handed over: all, or those up to the first one that is not answered. */
  function Reach(count: nat, answered: nat -> bool): (reach: nat)
    ensures reach <= count && (reach == count || (reach > 0 && !answered(reach - 1)))
    ensures reach > 0 ==> AllAnswered(reach - 1, answered)
  {
    if count == 0 || AllAnswered(count - 1, answered) then count else Reach(count - 1, answered)
  }

  lemma ReachIs(count: nat, answered: nat -> bool, n: nat)
    requires 0 < n <= count && AllAnswered(n - 1, answered) && !answered(n - 1)
    ensures Reach(count, answered) == n
  {
  }

  lemma ReachAll(count: nat, answered: nat -> bool)
    requires AllAnswered(count, answered)
    ensures Reach(count, answered) == count
  {
  }

  // ---------------------------------------------------------------- one connection

  /** One turn of the receive loop: a chunk, a chunk whose memory cannot be mapped, a poll that timed out, the end of
      the stream, a receive error, or a shutdown request seen before receiving. */
  datatype Event = Chunk(bytes: Bytes) | Unmapped | TimedOut | EndOfStream | ReceiveError | ShutdownRequested

  datatype Status = Open | Closed | ShutDown

  predicate Final(event: Event) {
    event.EndOfStream? || event.ReceiveError? || event.ShutdownRequested?
  }

  function Contribution(event: Event): Bytes {
    if event.Chunk? then event.bytes else []
  }

  /** The bytes a connection receives before its first final event. */
  function Stream(events: seq<Event>): Bytes {
    if events == [] || Final(events[0]) then [] else Contribution(events[0]) + Stream(events[1..])
  }

  /** How the events alone would end the connection. */
  function Ending(events: seq<Event>): Status {
    if events == [] then Open
    else if events[0].ShutdownRequested? then ShutDown
    else if Final(events[0]) then Closed
    else Ending(events[1..])
  }

  /** The frames handed over and the state of the connection, told by the received bytes and not by their pieces. */
  function Served(events: seq<Event>, answered: nat -> bool): (seq<Bytes>, Status) {
    var split := SplitFrames(Stream(events));
    (split.frames[..Reach(|split.frames|, answered)],
     if split.Malformed() || !AllAnswered(|split.frames|, answered) then Closed else Ending(events))
  }

  /** Hands over every complete frame of the buffer, until one is not answered or announces a bad length. */
  method DrainBuffer(pending: Bytes, before: seq<Bytes>, answered: nat -> bool)
    returns (delivered: seq<Bytes>, buffer: Bytes, open: bool)
    requires AllAnswered(|before|, answered)
    ensures var all := before + SplitFrames(pending).frames;
            && delivered == all[..Reach(|all|, answered)]
            && (open <==> AllAnswered(|all|, answered) && !SplitFrames(pending).Malformed())
            && (open ==> delivered == all && buffer == SplitFrames(pending).rest)
  {
    ghost var all := before + SplitFrames(pending).frames;
    delivered, buffer := before, pending;
    while |buffer| >= 4
      invariant all == delivered + SplitFrames(buffer).frames
      invariant SplitFrames(buffer).rest == SplitFrames(pending).rest
      invariant AllAnswered(|delivered|, answered)
      decreases |buffer|
    {
      var length := FieldI32(buffer[..4]);
      if length <= 0 || length > MAX_FRAME_LEN {
        ReachAll(|all|, answered);
        return delivered, buffer, false;
      }
      var total := 4 + length;
      if |buffer| < total {
        break;
      }
      ConcatAssociative(delivered, [buffer[..total]], SplitFrames(buffer[total..]).frames);
      delivered, buffer := delivered + [buffer[..total]], buffer[total..];
      if !answered(|delivered| - 1) {
        ReachIs(|all|, answered, |delivered|);
        return delivered, buffer, false;
      }
    }
    ReachAll(|all|, answered);
    open := true;
  }

  lemma {:induction false} StreamFrom(events: seq<Event>, i: nat, received: Bytes)
    requires i < |events| && !Final(events[i])
    requires Stream(events) == received + Stream(events[i..])
    ensures Stream(events) == (received + Contribution(events[i])) + Stream(events[i + 1..])
    ensures Ending(events[i..]) == Ending(events[i + 1..])
  {
    assert events[i..][1..] == events[i + 1..];
    ConcatAssociative(received, Contribution(events[i]), Stream(events[i + 1..]));
  }

  lemma ReachEarlier(count: nat, more: nat, answered: nat -> bool)
    requires !AllAnswered(count, answered) && count <= more
    ensures Reach(more, answered) == Reach(count, answered) && !AllAnswered(more, answered)
  {
    ReachIs(more, answered, Reach(count, answered));
  }

  /** A connection that stopped early stopped where the whole stream says it would. */
  lemma StoppedEarly(received: Bytes, later: Bytes, answered: nat -> bool)
    requires SplitFrames(received).Malformed() || !AllAnswered(|SplitFrames(received).frames|, answered)
    ensures var split, whole := SplitFrames(received), SplitFrames(received + later);
            && (whole.Malformed() || !AllAnswered(|whole.frames|, answered))
            && whole.frames[..Reach(|whole.frames|, answered)] == split.frames[..Reach(|split.frames|, answered)]
  {
    var split, whole := SplitFrames(received), SplitFrames(received + later);
    SplitExtends(received, later);
    if !AllAnswered(|split.frames|, answered) {
      ReachEarlier(|split.frames|, |whole.frames|, answered);
    } else {
      MalformedStays(received, later);
    }
  }

  lemma StillOpen(events: seq<Event>, received: Bytes, answered: nat -> bool)
    requires Stream(events) == received + [] && !SplitFrames(received).Malformed()
    requires AllAnswered(|SplitFrames(received).frames|, answered)
    ensures Stream(events) == received && Served(events, answered) == (SplitFrames(received).frames, Ending(events))
  {
    assert received + [] == received;
    var frames := SplitFrames(received).frames;
    ReachAll(|frames|, answered);
    assert frames[..|frames|] == frames;
  }

  /** The receive loop: however the stream is cut into chunks, the same frames are handed over in the same order. */
  method ServeConnection(events: seq<Event>, answered: nat -> bool)
    returns (delivered: seq<Bytes>, buffer: Bytes, status: Status)
    ensures (delivered, status) == Served(events, answered)
    ensures status.Open? ==> Joined(delivered) + buffer == Stream(events) && |buffer| < 4 + MAX_FRAME_LEN
  {
    delivered, buffer := [], [];
    ghost var received: Bytes := [];
    var i := 0;
    while i < |events|
      invariant 0 <= i <= |events|
      invariant Stream(events) == received + Stream(events[i..]) && Ending(events) == Ending(events[i..])
      invariant SplitFrames(received) == Split(delivered, buffer)
      invariant !BadLength(buffer) && AllAnswered(|delivered|, answered)
    {
      var event := events[i];
      if Final(event) {
        StillOpen(events, received, answered);
        return delivered, buffer, if event.ShutdownRequested? then ShutDown else Closed;
      }
      StreamFrom(events, i, received);
      i := i + 1;
      if event.Chunk? {
        SplitExtends(received, event.bytes);
        received := received + event.bytes;
        var open;
        delivered, buffer, open := DrainBuffer(buffer + event.bytes, delivered, answered);
        if !open {
          StoppedEarly(received, Stream(events[i..]), answered);
          return delivered, buffer, Closed;
        }
      } else {
        assert received + [] == received;
      }
    }
    StillOpen(events, received, answered);
    SplitConserves(received);
    BacklogBounded(received);
    status := Open;
  }
}
