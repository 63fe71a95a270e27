/**
 * The older, stateless driver: the handler holds only the bus address and
 * the capabilities, all six of which must be bound since every one is
 * called unconditionally. The single-shot read takes its repeatability as
 * an argument.
 */
module Sht3xLegacy {
  import opened Types
  import opened Platform
  import opened Protocol
  import opened Conversion
  import opened Retry
  import Control
  import Sht3x

  /** The build option SHT3X_CLOCK_STRETCHING, which the header sets to 0. */
  const ClockStretching := false

  /** The address for a selector: 0 names address A, every other value address B. */
  function LegacyAddress(selector: byte): (a: byte)
    ensures selector == 0 ==> a == AddressA
    ensures selector != 0 ==> a == AddressB
  {
    if selector == 0 then AddressA else AddressB
  }

  /** On the pin values 0 and 1 the two variants select the same address. */
  lemma AddressVariantsAgreeOnPins(current: byte, selector: byte)
    requires selector <= 1
    ensures Sht3x.ResolveAddress(current, selector) == LegacyAddress(selector)
  {
  }

  /**
   * Elsewhere they differ: the older variant maps the literal address A to
   * address B, and maps an unrecognised selector to B where the current
   * one keeps the address it had.
   */
  lemma AddressVariantsDiffer(current: byte)
    ensures Sht3x.ResolveAddress(current, AddressA) == AddressA && LegacyAddress(AddressA) == AddressB
    ensures Sht3x.ResolveAddress(current, 0x99) == current && LegacyAddress(0x99) == AddressB
  {
  }

  /** SHT3x_Handler_t of the older header. */
  class LegacyHandler {
    var addressI2C: byte
    const crc: CrcCheck
    const bus: Bus
    /**
     * The bound of the single-shot poll, MaxAttempts in every handler the
     * constructor makes. The loop at SHT3x.c:219 writes the literal 20; holding it in a
     * field keeps the verifier from unfolding the recursive poll functions
     * twenty levels deep wherever a read is reasoned about.
     */
    const pollAttempts: nat

    /** A zero-initialised handler over a fully bound platform. */
    constructor (bus: Bus, crc: CrcCheck)
      ensures this.bus == bus && this.crc == crc && addressI2C == 0
      ensures pollAttempts == MaxAttempts
    {
      pollAttempts := MaxAttempts;
      this.bus := bus;
      this.crc := crc;
      addressI2C := 0;
    }

    /**
     * SHT3x_ReadSample_SingleShot: a repeatability other than 0, 1, 2 is
     * refused before any bus traffic; otherwise the command of the table
     * ClockStretching selects is sent, a failed send ends the read, and the
     * uninitialised buffer (`stale`) is polled. The result of the poll is
     * not checked again: the frame is decoded whatever it holds.
     */
    method ReadSampleSingleShot(sample: Sample, rep: byte) returns (r: Result, ghost stale: seq<byte>)
      modifies bus, sample
      ensures r != NoData
      ensures !ValidRepeatability(rep as int) ==>
        && r == InvalidParam && bus.log == old(bus.log)
        && bus.sends == old(bus.sends) && bus.receives == old(bus.receives) && unchanged(sample)
      ensures ValidRepeatability(rep as int) ==>
        var cmd := SingleShotCommand(ClockStretching, rep as int).value;
        var sent := old(bus.log) + [Sent(addressI2C, cmd.Frame())];
        var k0 := old(bus.receives);
        && bus.sends == old(bus.sends) + 1
        && if bus.sendReply(old(bus.sends)) != 0 then
             r == Fail && bus.log == sent && bus.receives == k0 && unchanged(sample)
           else
             && |stale| == FrameLength
             && bus.log == sent + PollLog(addressI2C, bus.receiveReply, k0, pollAttempts)
             && bus.receives == k0 + Attempts(bus.receiveReply, k0, pollAttempts)
             && Stored(sample, PollBuffer(stale, bus.receiveReply, k0, pollAttempts), crc, r)
    {
      var buf := new byte[FrameLength];
      buf[0], buf[1], buf[2], buf[3], buf[4], buf[5] := *, *, *, *, *, *;
      stale := buf[..];
      var cmd := SingleShotCommand(ClockStretching, rep as int);
      if cmd.None? {
        return InvalidParam, stale;
      }
      var code := bus.Send(addressI2C, cmd.value.Frame());
      if code != 0 {
        return Fail, stale;
      }
      var _ := Poll(bus, addressI2C, buf, pollAttempts);
      ghost var checked;
      r, checked := StoreSample(sample, buf, crc);
    }

    /**
     * The single-shot read as its documented result codes intend it: a poll
     * in which no receive returned 0 is a failed receive, reported as Fail
     * without touching the sample; everything else is as written.
     */
    method ReadSampleSingleShotChecked(sample: Sample, rep: byte) returns (r: Result, ghost stale: seq<byte>)
      modifies bus, sample
      ensures r != NoData
      ensures !ValidRepeatability(rep as int) ==>
        && r == InvalidParam && bus.log == old(bus.log)
        && bus.sends == old(bus.sends) && bus.receives == old(bus.receives) && unchanged(sample)
      ensures ValidRepeatability(rep as int) ==>
        var cmd := SingleShotCommand(ClockStretching, rep as int).value;
        var sent := old(bus.log) + [Sent(addressI2C, cmd.Frame())];
        var k0 := old(bus.receives);
        && bus.sends == old(bus.sends) + 1
        && if bus.sendReply(old(bus.sends)) != 0 then
             r == Fail && bus.log == sent && bus.receives == k0 && unchanged(sample)
           else
             && |stale| == FrameLength
             && bus.log == sent + PollLog(addressI2C, bus.receiveReply, k0, pollAttempts)
             && bus.receives == k0 + Attempts(bus.receiveReply, k0, pollAttempts)
             && if !PollSucceeds(bus.receiveReply, k0, pollAttempts) then r == Fail && unchanged(sample)
                else Stored(sample, PollBuffer(stale, bus.receiveReply, k0, pollAttempts), crc, r)
    {
      var buf := new byte[FrameLength];
      buf[0], buf[1], buf[2], buf[3], buf[4], buf[5] := *, *, *, *, *, *;
      stale := buf[..];
      var cmd := SingleShotCommand(ClockStretching, rep as int);
      if cmd.None? {
        return InvalidParam, stale;
      }
      var code := bus.Send(addressI2C, cmd.value.Frame());
      if code != 0 {
        return Fail, stale;
      }
      var received := Poll(bus, addressI2C, buf, pollAttempts);
      if !received {
        return Fail, stale;
      }
      ghost var checked;
      r, checked := StoreSample(sample, buf, crc);
    }

    /** SHT3x_Init: address A, then the platform init, whose failure gives Fail. */
    method Init() returns (r: Result)
      modifies this`addressI2C, bus
      ensures addressI2C == AddressA
      ensures bus.log == old(bus.log) + [InitCalled]
      ensures bus.sends == old(bus.sends) && bus.receives == old(bus.receives)
      ensures r == (if bus.initReply == 0 then Ok else Fail)
    {
      var _ := SetAddressI2C(0);
      var code := bus.Init();
      r := if code != 0 then Fail else Ok;
    }

    /** SHT3x_DeInit: the platform deinit, whose failure gives Fail. */
    method DeInit() returns (r: Result)
      modifies bus
      ensures bus.log == old(bus.log) + [DeInitCalled]
      ensures bus.sends == old(bus.sends) && bus.receives == old(bus.receives)
      ensures r == (if bus.deInitReply == 0 then Ok else Fail)
    {
      var code := bus.DeInit();
      r := if code != 0 then Fail else Ok;
    }

    /** SHT3x_SetAddressI2C: always Ok. */
    method SetAddressI2C(selector: byte) returns (r: Result)
      modifies this`addressI2C
      ensures addressI2C == LegacyAddress(selector) && r == Ok
    {
      if selector == 0 {
        addressI2C := AddressA;
      } else {
        addressI2C := AddressB;
      }
      r := Ok;
    }

    /** SHT3x_ReadStatus */
    method ReadStatus() returns (r: Result, status: Option<uint16>, ghost stale: seq<byte>)
      modifies bus
      ensures Control.StatusReadDone(bus, addressI2C, crc, r, status, stale)
    {
      r, status, stale := Control.ReadStatus(bus, addressI2C, crc);
    }

    /** SHT3x_ClearStatus */
    method ClearStatus() returns (r: Result)
      modifies bus
      ensures Control.CommandSent(bus, addressI2C, StatusClear, r)
    {
      r := Control.ClearStatus(bus, addressI2C);
    }

    /** SHT3x_SetHeater */
    method SetHeater(heater: byte) returns (r: Result)
      modifies bus
      ensures Control.CommandSent(bus, addressI2C, Control.HeaterCommand(heater), r)
    {
      r := Control.SetHeater(bus, addressI2C, heater);
    }
  }
}
