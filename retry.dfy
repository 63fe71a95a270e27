/**
 * The single-shot polling loop both driver variants run after starting a
 * measurement: up to twenty six-byte receives, stopping at the first that
 * returns 0, with a 1 ms delay after every receive that fails. The spec
 * functions below give, for a scripted bus, the calls the loop makes, the
 * number of receives and the buffer it leaves.
 */
module Retry {
  import opened Types
  import opened Platform
  import opened Conversion

  /** The loop bound: twenty receives, about 20 ms at one per millisecond. */
  const MaxAttempts: nat := 20

  /** Receives made by a poll of at most `budget` attempts starting at the from-th reply. */
  function Attempts(rr: nat -> Reply, from: nat, budget: nat): (n: nat)
    ensures n <= budget
    ensures budget > 0 ==> 1 <= n
    decreases budget
  {
    if budget == 0 then 0
    else if rr(from).code == 0 then 1
    else 1 + Attempts(rr, from + 1, budget - 1)
  }

  /**
   * The platform calls of such a poll: two per receive, the receive and
   * the delay after it, except that a receive returning 0 has no delay.
   */
  ghost function PollLog(addr: byte, rr: nat -> Reply, from: nat, budget: nat): seq<Event>
    decreases budget
  {
    if budget == 0 then []
    else if rr(from).code == 0 then [Received(addr, FrameLength)]
    else [Received(addr, FrameLength), Delayed(1)] + PollLog(addr, rr, from + 1, budget - 1)
  }

  /** The buffer after such a poll, from its contents before. */
  function PollBuffer(buf: seq<byte>, rr: nat -> Reply, from: nat, budget: nat): (r: seq<byte>)
    requires |buf| == FrameLength
    ensures |r| == FrameLength
    decreases budget
  {
    if budget == 0 then buf
    else
      var next := Overlay(buf, rr(from).written, FrameLength);
      if rr(from).code == 0 then next else PollBuffer(next, rr, from + 1, budget - 1)
  }

  /** Whether some receive of such a poll returns 0. */
  function PollSucceeds(rr: nat -> Reply, from: nat, budget: nat): bool
    decreases budget
  {
    budget > 0 && (rr(from).code == 0 || PollSucceeds(rr, from + 1, budget - 1))
  }

  /** k failed attempts: each a six-byte receive followed by a 1 ms delay. */
  ghost function FailedPolls(addr: byte, k: nat): seq<Event>
  {
    if k == 0 then [] else [Received(addr, FrameLength), Delayed(1)] + FailedPolls(addr, k - 1)
  }

  /** The replies from..from+k-1 all fail. */
  ghost predicate FailsFrom(rr: nat -> Reply, from: nat, k: nat)
  {
    forall j :: from <= j < from + k ==> rr(j).code != 0
  }

  /** k failed attempts log exactly k receives, each followed by exactly one Delayed(1). */
  lemma {:induction false} FailedPollsShape(addr: byte, k: nat)
    ensures |FailedPolls(addr, k)| == 2 * k
    ensures forall i :: 0 <= i < k ==>
      FailedPolls(addr, k)[2 * i] == Received(addr, FrameLength) && FailedPolls(addr, k)[2 * i + 1] == Delayed(1)
  {
    if k > 0 {
      FailedPollsShape(addr, k - 1);
      var rest := FailedPolls(addr, k - 1);
      assert FailedPolls(addr, k) == [Received(addr, FrameLength), Delayed(1)] + rest;
      forall i | 0 < i < k
        ensures FailedPolls(addr, k)[2 * i] == Received(addr, FrameLength)
        ensures FailedPolls(addr, k)[2 * i + 1] == Delayed(1)
      {
        assert FailedPolls(addr, k)[2 * i] == rest[2 * (i - 1)];
        assert FailedPolls(addr, k)[2 * i + 1] == rest[2 * (i - 1) + 1];
      }
    }
  }

  /**
   * When the first k attempts fail and the next one succeeds within the
   * budget, the poll stops there: k + 1 receives, a delay after each of the
   * k failures, and none after the success.
   */
  lemma {:induction false} PollStopsAtFirstSuccess(addr: byte, rr: nat -> Reply, from: nat, budget: nat, k: nat)
    requires k < budget && FailsFrom(rr, from, k) && rr(from + k).code == 0
    ensures Attempts(rr, from, budget) == k + 1
    ensures PollLog(addr, rr, from, budget) == FailedPolls(addr, k) + [Received(addr, FrameLength)]
    decreases k
  {
    if k > 0 {
      assert rr(from).code != 0;
      PollStopsAtFirstSuccess(addr, rr, from + 1, budget - 1, k - 1);
    }
  }

  /** When every attempt fails the poll uses its whole budget, with a delay after each receive. */
  lemma {:induction false} PollExhausted(addr: byte, rr: nat -> Reply, from: nat, budget: nat)
    requires FailsFrom(rr, from, budget)
    ensures Attempts(rr, from, budget) == budget
    ensures PollLog(addr, rr, from, budget) == FailedPolls(addr, budget)
    decreases budget
  {
    if budget > 0 {
      assert rr(from).code != 0;
      PollExhausted(addr, rr, from + 1, budget - 1);
    }
  }

  /** Either every attempt fails or there is a first success within the budget. */
  lemma {:induction false} FirstSuccess(rr: nat -> Reply, from: nat, budget: nat) returns (k: nat)
    requires !FailsFrom(rr, from, budget)
    ensures k < budget && FailsFrom(rr, from, k) && rr(from + k).code == 0
    decreases budget
  {
    if rr(from).code == 0 {
      k := 0;
    } else {
      var k' := FirstSuccess(rr, from + 1, budget - 1);
      k := k' + 1;
    }
  }

  /**
   * Calling the successful attempt the first whose reply is 0, a poll
   * succeeds exactly when some attempt within the budget does.
   */
  lemma {:induction false} PollSucceedsIff(rr: nat -> Reply, from: nat, budget: nat)
    ensures PollSucceeds(rr, from, budget) <==> !FailsFrom(rr, from, budget)
    decreases budget
  {
    if budget > 0 && rr(from).code != 0 {
      PollSucceedsIff(rr, from + 1, budget - 1);
      if FailsFrom(rr, from + 1, budget - 1) {
        assert FailsFrom(rr, from, budget);
      } else {
        var j :| from + 1 <= j < from + budget && rr(j).code == 0;
        assert !FailsFrom(rr, from, budget);
      }
    }
  }

  /**
   * The outcome and the calls of a poll agree: when it succeeds, its last
   * receive is the one that returned 0 and the log has no delay after it;
   * when it fails, it used its whole budget and every receive has its delay.
   */
  lemma {:induction false} PollOutcome(addr: byte, rr: nat -> Reply, from: nat, budget: nat)
    ensures PollSucceeds(rr, from, budget) ==>
      && budget > 0
      && rr(from + Attempts(rr, from, budget) - 1).code == 0
      && |PollLog(addr, rr, from, budget)| == 2 * Attempts(rr, from, budget) - 1
    ensures !PollSucceeds(rr, from, budget) ==>
      && Attempts(rr, from, budget) == budget
      && |PollLog(addr, rr, from, budget)| == 2 * budget
    decreases budget
  {
    if budget > 0 && rr(from).code != 0 {
      PollOutcome(addr, rr, from + 1, budget - 1);
    }
  }

  /**
   * A success that stores the whole frame decides the buffer: whatever it
   * held before and whatever failed attempts stored, the poll leaves the
   * successful reply's six bytes.
   */
  lemma {:induction false} PollBufferAfterSuccess(buf: seq<byte>, rr: nat -> Reply, from: nat, budget: nat, k: nat)
    requires |buf| == FrameLength
    requires k < budget && FailsFrom(rr, from, k) && rr(from + k).code == 0
    requires |rr(from + k).written| >= FrameLength
    ensures PollBuffer(buf, rr, from, budget) == rr(from + k).written[..FrameLength]
    decreases k
  {
    var next := Overlay(buf, rr(from).written, FrameLength);
    if k > 0 {
      assert rr(from).code != 0;
      PollBufferAfterSuccess(next, rr, from + 1, budget - 1, k - 1);
    } else {
      assert next == rr(from).written[..FrameLength];
    }
  }

  /** Failed attempts that store nothing leave the buffer as it was. */
  lemma {:induction false} SilentFailuresKeepBuffer(buf: seq<byte>, rr: nat -> Reply, from: nat, budget: nat)
    requires |buf| == FrameLength
    requires FailsFrom(rr, from, budget)
    requires forall j :: from <= j < from + budget ==> rr(j).written == []
    ensures PollBuffer(buf, rr, from, budget) == buf
    decreases budget
  {
    if budget > 0 {
      assert rr(from).code != 0 && rr(from).written == [];
      assert Overlay(buf, [], FrameLength) == buf;
      SilentFailuresKeepBuffer(buf, rr, from + 1, budget - 1);
    }
  }

  /** One attempt of a poll with budget left: the unfolding the loop below takes a step at a time. */
  lemma PollStep(addr: byte, buf: seq<byte>, rr: nat -> Reply, from: nat, budget: nat)
    requires |buf| == FrameLength && budget > 0
    ensures rr(from).code == 0 ==>
      && PollLog(addr, rr, from, budget) == [Received(addr, FrameLength)]
      && PollBuffer(buf, rr, from, budget) == Overlay(buf, rr(from).written, FrameLength)
      && Attempts(rr, from, budget) == 1
      && PollSucceeds(rr, from, budget)
    ensures rr(from).code != 0 ==>
      && PollLog(addr, rr, from, budget)
         == [Received(addr, FrameLength), Delayed(1)] + PollLog(addr, rr, from + 1, budget - 1)
      && PollBuffer(buf, rr, from, budget)
         == PollBuffer(Overlay(buf, rr(from).written, FrameLength), rr, from + 1, budget - 1)
      && Attempts(rr, from, budget) == 1 + Attempts(rr, from + 1, budget - 1)
      && PollSucceeds(rr, from, budget) == PollSucceeds(rr, from + 1, budget - 1)
  {
  }

  /**
   * The loop itself, `for (Counter = 0; Counter < 20; Counter++)` with
   * `budget` for the 20: a receive that breaks out on 0, else a 1 ms delay.
   * `received` tells whether some receive returned 0; the drivers as
   * written do not look at it.
   */
  method Poll(bus: Bus, addr: byte, buf: array<byte>, budget: nat) returns (received: bool)
    requires buf.Length == FrameLength
    modifies bus, buf
    ensures received == PollSucceeds(bus.receiveReply, old(bus.receives), budget)
    ensures bus.log == old(bus.log) + PollLog(addr, bus.receiveReply, old(bus.receives), budget)
    ensures buf[..] == PollBuffer(old(buf[..]), bus.receiveReply, old(bus.receives), budget)
    ensures bus.receives == old(bus.receives) + Attempts(bus.receiveReply, old(bus.receives), budget)
    ensures bus.sends == old(bus.sends)
  {
    ghost var rr, k0, log0, buf0 := bus.receiveReply, bus.receives, bus.log, buf[..];
    ghost var next, left := k0, budget;
    var counter := 0;
    while counter < budget
      invariant 0 <= counter <= budget && next == k0 + counter && left == budget - counter
      invariant PollSucceeds(rr, k0, budget) == PollSucceeds(rr, next, left)
      invariant bus.receives == next && bus.sends == old(bus.sends)
      invariant log0 + PollLog(addr, rr, k0, budget) == bus.log + PollLog(addr, rr, next, left)
      invariant PollBuffer(buf0, rr, k0, budget) == PollBuffer(buf[..], rr, next, left)
      invariant Attempts(rr, k0, budget) == counter + Attempts(rr, next, left)
    {
      PollStep(addr, buf[..], rr, next, left);
      var code := bus.Receive(addr, buf, FrameLength);
      if code == 0 {
        return true;
      }
      var _ := bus.Delay(1);
      counter := counter + 1;
      next, left := next + 1, left - 1;
    }
    received := false;
  }
}
