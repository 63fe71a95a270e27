/**
 * The platform capability layer the driver calls through its handler:
 * send, receive, delay, init and deinit act on one scripted bus object that
 * records every call in a ghost log; the CRC capability is a pure function.
 */
module Platform {
  import opened Types

  /** One call the driver made into the platform layer. */
  datatype Event =
    | Sent(addr: byte, data: seq<byte>)
    | Received(addr: byte, len: nat)
    | Delayed(ms: byte)
    | InitCalled
    | DeInitCalled

  /**
   * The effect of one receive: its return code and the bytes it stored
   * into the caller's buffer, from the start. A failing transfer may store
   * fewer bytes than were asked for, or none at all.
   */
  datatype Reply = Reply(code: int8, written: seq<byte>)

  /** The receive code "slave doesn't ACK the transfer". */
  const Nack: int8 := -3

  /** A CRC capability: 0 when the CRC byte matches the 16-bit word, nonzero otherwise. */
  type CrcCheck = (uint16, byte) -> int8

  /** A buffer after a receive of `len` bytes that stored `written`. */
  function Overlay(buf: seq<byte>, written: seq<byte>, len: nat): (r: seq<byte>)
    requires len <= |buf|
    ensures |r| == |buf|
  {
    var n := if |written| < len then |written| else len;
    written[..n] + buf[n..]
  }

  /**
   * Byte by byte: the first min(len, |written|) bytes are the reply's, the
   * rest are what the buffer held.
   */
  lemma OverlayBytes(buf: seq<byte>, written: seq<byte>, len: nat)
    requires len <= |buf|
    ensures forall i :: 0 <= i < |buf| && i < len && i < |written| ==> Overlay(buf, written, len)[i] == written[i]
    ensures forall i :: 0 <= i < |buf| && (len <= i || |written| <= i) ==> Overlay(buf, written, len)[i] == buf[i]
  {
  }

  /**
   * A bus whose answers are fixed in advance: the n-th send returns
   * sendReply(n), the n-th receive behaves as receiveReply(n).
   */
  class Bus {
    ghost var log: seq<Event>
    const sendReply: nat -> int8
    const receiveReply: nat -> Reply
    const initReply: int8
    const deInitReply: int8
    var sends: nat
    var receives: nat

    constructor (sendReply: nat -> int8, receiveReply: nat -> Reply, initReply: int8, deInitReply: int8)
      ensures this.sendReply == sendReply && this.receiveReply == receiveReply
      ensures this.initReply == initReply && this.deInitReply == deInitReply
      ensures log == [] && sends == 0 && receives == 0
    {
      this.sendReply := sendReply;
      this.receiveReply := receiveReply;
      this.initReply := initReply;
      this.deInitReply := deInitReply;
      log := [];
      sends, receives := 0, 0;
    }

    /** PlatformSend */
    method Send(addr: byte, data: seq<byte>) returns (code: int8)
      modifies this
      ensures log == old(log) + [Sent(addr, data)]
      ensures code == sendReply(old(sends))
      ensures sends == old(sends) + 1 && receives == old(receives)
    {
      code := sendReply(sends);
      sends := sends + 1;
      log := log + [Sent(addr, data)];
    }

    /** PlatformReceive: stores the scripted bytes into `buf` whatever the code. */
    method Receive(addr: byte, buf: array<byte>, len: nat) returns (code: int8)
      requires len <= buf.Length
      modifies this, buf
      ensures log == old(log) + [Received(addr, len)]
      ensures code == receiveReply(old(receives)).code
      ensures buf[..] == Overlay(old(buf[..]), receiveReply(old(receives)).written, len)
      ensures receives == old(receives) + 1 && sends == old(sends)
    {
      var reply := receiveReply(receives);
      var n := if |reply.written| < len then |reply.written| else len;
      forall i | 0 <= i < n {
        buf[i] := reply.written[i];
      }
      code := reply.code;
      receives := receives + 1;
      log := log + [Received(addr, len)];
    }

    /** PlatformDelay: only its occurrence and its argument are modelled. */
    method Delay(ms: byte) returns (code: int8)
      modifies this
      ensures log == old(log) + [Delayed(ms)] && code == 0
      ensures sends == old(sends) && receives == old(receives)
    {
      code := 0;
      log := log + [Delayed(ms)];
    }

    /** PlatformInit */
    method Init() returns (code: int8)
      modifies this
      ensures log == old(log) + [InitCalled] && code == initReply
      ensures sends == old(sends) && receives == old(receives)
    {
      code := initReply;
      log := log + [InitCalled];
    }

    /** PlatformDeInit */
    method DeInit() returns (code: int8)
      modifies this
      ensures log == old(log) + [DeInitCalled] && code == deInitReply
      ensures sends == old(sends) && receives == old(receives)
    {
      code := deInitReply;
      log := log + [DeInitCalled];
    }
  }
}
