/**
 * Status and heater commands. Both driver variants implement them with the
 * same code; each handler class forwards to these with its address and CRC
 * capability.
 */
module Control {
  import opened Types
  import opened Platform
  import opened Protocol

  /**
   * What a status read leaves: 0xF32D is sent; a send failure ends it with
   * Fail and no receive; otherwise three bytes are received, a receive
   * failure ends it with Fail, and otherwise the big-endian status word is
   * written, then checked against the third byte. `stale` is what the
   * uninitialised buffer held before the receive.
   */
  twostate predicate StatusReadDone(bus: Bus, addr: byte, crc: CrcCheck, r: Result, new status: Option<uint16>, stale: seq<byte>)
    reads bus
  {
    var s0, k0 := old(bus.sends), old(bus.receives);
    var sent := old(bus.log) + [Sent(addr, StatusRead.Frame())];
    && bus.sends == s0 + 1
    && if bus.sendReply(s0) != 0 then
         r == Fail && status == None && bus.log == sent && bus.receives == k0
       else
         && bus.log == sent + [Received(addr, 3)]
         && bus.receives == k0 + 1
         && var reply := bus.receiveReply(k0);
            if reply.code != 0 then
              r == Fail && status == None
            else
              && |stale| == 3
              && var buf := Overlay(stale, reply.written, 3);
                 && status == Some(Be16(buf[0], buf[1]))
                 && r == (if crc(status.value, buf[2]) != 0 then CrcError else Ok)
  }

  /** SHT3x_ReadStatus */
  method ReadStatus(bus: Bus, addr: byte, crc: CrcCheck) returns (r: Result, status: Option<uint16>, ghost stale: seq<byte>)
    modifies bus
    ensures StatusReadDone(bus, addr, crc, r, status, stale)
  {
    var buf := new byte[3];
    buf[0], buf[1], buf[2] := *, *, *;
    stale := buf[..];
    var code := bus.Send(addr, StatusRead.Frame());
    if code != 0 {
      return Fail, None, stale;
    }
    code := bus.Receive(addr, buf, 3);
    if code != 0 {
      return Fail, None, stale;
    }
    var word := Be16(buf[0], buf[1]);
    status := Some(word);
    if crc(word, buf[2]) != 0 {
      return CrcError, status, stale;
    }
    r := Ok;
  }

  /** A status read whose reply stores all three bytes reports them, and its CRC verdict on them. */
  lemma StatusFromFullReply(stale: seq<byte>, written: seq<byte>)
    requires |stale| == 3 && |written| >= 3
    ensures Overlay(stale, written, 3) == written[..3]
  {
  }

  /** What sending one fixed command leaves: one send, Ok exactly when it returned 0. */
  twostate predicate CommandSent(bus: Bus, addr: byte, cmd: Command, r: Result)
    reads bus
  {
    && bus.log == old(bus.log) + [Sent(addr, cmd.Frame())]
    && bus.sends == old(bus.sends) + 1
    && bus.receives == old(bus.receives)
    && r == (if bus.sendReply(old(bus.sends)) == 0 then Ok else Fail)
  }

  /** SHT3x_ClearStatus */
  method ClearStatus(bus: Bus, addr: byte) returns (r: Result)
    modifies bus
    ensures CommandSent(bus, addr, StatusClear, r)
  {
    var code := bus.Send(addr, StatusClear.Frame());
    r := if code != 0 then Fail else Ok;
  }

  /** The heater command for the C truth value of `heater`. */
  function HeaterCommand(heater: byte): (c: Command)
    ensures c.Word() == (if heater != 0 then 0x306D else 0x3066)
  {
    if heater != 0 then HeaterOn else HeaterOff
  }

  /** SHT3x_SetHeater */
  method SetHeater(bus: Bus, addr: byte, heater: byte) returns (r: Result)
    modifies bus
    ensures CommandSent(bus, addr, HeaterCommand(heater), r)
  {
    var cmd := if heater != 0 then HeaterOn else HeaterOff;
    var code := bus.Send(addr, cmd.Frame());
    r := if code != 0 then Fail else Ok;
  }
}
