/**
 * The current driver: a handler that keeps the bus address and the
 * measurement mode the sensor was last put in, so that a sample read
 * issues the command family of that mode.
 */
module Sht3x {
  import opened Types
  import opened Platform
  import opened Protocol
  import opened Conversion
  import opened Retry
  import Control

  /** SHT3x_Mode_t */
  datatype Mode = SingleShot | Periodic | Art

  /** The single-shot reads of this driver never use clock stretching. */
  const NoClockStretching := false

  /** A receive buffer before any byte is received: `uint8_t Buffer[6] = {0}`. */
  const ZeroFrame: seq<byte> := [0, 0, 0, 0, 0, 0]

  /** The default CRC capability installed by Init: it accepts every word. */
  function CheckCrc(data: uint16, crc: byte): (r: int8)
    ensures r == 0
  {
    0
  }

  /** With the default CRC capability no frame is a CRC error. */
  lemma DefaultCrcAcceptsAll(frame: seq<byte>)
    requires |frame| == FrameLength
    ensures FrameCheck(frame, CheckCrc) == Ok
  {
  }

  /**
   * The address the handler holds after selecting `selector`: the pin
   * values 0 and 1, the 7-bit addresses and their write frames all name
   * their address; any other value keeps the current one.
   */
  function ResolveAddress(current: byte, selector: byte): (a: byte)
    ensures selector in {0, AddressA, WriteFrame(AddressA)} ==> a == AddressA
    ensures selector in {1, AddressB, WriteFrame(AddressB)} ==> a == AddressB
    ensures selector !in {0, AddressA, WriteFrame(AddressA), 1, AddressB, WriteFrame(AddressB)} ==> a == current
  {
    if selector == 0 || selector == AddressA || selector == WriteFrame(AddressA) then AddressA
    else if selector == 1 || selector == AddressB || selector == WriteFrame(AddressB) then AddressB
    else current
  }

  /** Selecting again with the same value changes nothing. */
  lemma ResolveIdempotent(current: byte, selector: byte)
    ensures ResolveAddress(ResolveAddress(current, selector), selector) == ResolveAddress(current, selector)
  {
  }

  /** Selecting the address the handler already holds is a no-op. */
  lemma ResolveCurrentIsNoOp(current: byte)
    requires current == AddressA || current == AddressB
    ensures ResolveAddress(current, current) == current
  {
  }

  /** The pin value, the 7-bit address and its write frame are equivalent selectors. */
  lemma ResolveEquivalentEncodings(current: byte, pin: byte)
    requires pin <= 1
    ensures var a := ResolveAddress(current, pin);
      && a == (if pin == 0 then AddressA else AddressB)
      && ResolveAddress(current, a) == a
      && ResolveAddress(current, WriteFrame(a)) == a
  {
  }

  /**
   * A sensor that never answers: when every receive of the poll fails and
   * stores nothing, the single-shot read makes `budget` receives, each
   * followed by a 1 ms delay, and its zeroed buffer keeps both CRC bytes at
   * 0, so that the read reports Fail.
   */
  lemma SilentSensorReadFails(addr: byte, rr: nat -> Reply, k0: nat, budget: nat)
    requires FailsFrom(rr, k0, budget)
    requires forall j :: k0 <= j < k0 + budget ==> rr(j).written == []
    ensures Attempts(rr, k0, budget) == budget
    ensures PollLog(addr, rr, k0, budget) == FailedPolls(addr, budget)
    ensures var buf := PollBuffer(ZeroFrame, rr, k0, budget); buf[2] == 0 && buf[5] == 0
  {
    PollExhausted(addr, rr, k0, budget);
    SilentFailuresKeepBuffer(ZeroFrame, rr, k0, budget);
  }

  /** SHT3x_Handler_t */
  class Handler {
    var addressI2C: byte
    var mode: Mode
    var repeatability: int
    var speed: int
    /** Which optional and required capability slots are bound; all route to `bus`. */
    const platformInit: bool
    const platformDeInit: bool
    const platformSend: bool
    const platformReceive: bool
    const platformDelay: bool
    var platformCrc: Option<CrcCheck>
    const bus: Bus
    /**
     * The bound of the single-shot poll, MaxAttempts in every handler the
     * constructor makes. The loop at src/SHT3x.c:359 writes the literal 20; holding it in a
     * field keeps the verifier from unfolding the recursive poll functions
     * twenty levels deep wherever a read is reasoned about.
     */
    const pollAttempts: nat

    /** A zero-initialised handler with the given capability slots bound. */
    constructor (bus: Bus, init: bool, deInit: bool, send: bool, receive: bool, delay: bool, crc: Option<CrcCheck>)
      ensures this.bus == bus && platformCrc == crc
      ensures platformInit == init && platformDeInit == deInit
      ensures platformSend == send && platformReceive == receive && platformDelay == delay
      ensures addressI2C == 0 && mode == SingleShot && repeatability == Low && speed == Mps05
      ensures pollAttempts == MaxAttempts
    {
      this.bus := bus;
      pollAttempts := MaxAttempts;
      platformInit, platformDeInit := init, deInit;
      platformSend, platformReceive, platformDelay := send, receive, delay;
      platformCrc := crc;
      addressI2C, mode, repeatability, speed := 0, SingleShot, Low, Mps05;
    }

    /**
     * SHT3x_SetModeSingleShot: always sends the stop-periodic command; only
     * when that send succeeds are the mode and the (unchecked) repeatability
     * stored. The speed is kept.
     */
    method SetModeSingleShot(rep: int) returns (r: Result)
      requires platformSend
      modifies this`mode, this`repeatability, bus
      ensures Control.CommandSent(bus, addressI2C, StopPeriodic, r)
      ensures r == Ok ==> mode == SingleShot && repeatability == rep
      ensures r == Fail ==> mode == old(mode) && repeatability == old(repeatability)
    {
      var code := bus.Send(addressI2C, StopPeriodic.Frame());
      if code != 0 {
        return Fail;
      }
      mode := SingleShot;
      repeatability := rep;
      r := Ok;
    }

    /**
     * SHT3x_SetModePeriodic: an out-of-range speed is refused before any
     * bus traffic; otherwise the tabulated command is sent, and mode, speed
     * and repeatability are stored only when the send succeeds. The
     * repeatability indexes a three-entry array, so it must be in range
     * whenever the speed is.
     */
    method SetModePeriodic(speed: int, rep: int) returns (r: Result)
      requires platformSend
      requires ValidSpeed(speed) ==> ValidRepeatability(rep)
      modifies this`mode, this`speed, this`repeatability, bus
      ensures !ValidSpeed(speed) ==>
        && r == InvalidParam && bus.log == old(bus.log)
        && bus.sends == old(bus.sends) && bus.receives == old(bus.receives)
        && mode == old(mode) && this.speed == old(this.speed) && repeatability == old(repeatability)
      ensures ValidSpeed(speed) ==> Control.CommandSent(bus, addressI2C, PeriodicCommand(speed, rep), r)
      ensures ValidSpeed(speed) && r == Ok ==> mode == Periodic && this.speed == speed && repeatability == rep
      ensures ValidSpeed(speed) && r == Fail ==>
        mode == old(mode) && this.speed == old(this.speed) && repeatability == old(repeatability)
    {
      var msb := new byte[5];
      msb[Mps05], msb[Mps1], msb[Mps2], msb[Mps4], msb[Mps10] := 0x20, 0x21, 0x22, 0x23, 0x27;
      var lsb := new byte[3];
      if speed == Mps05 {
        lsb[Low], lsb[Medium], lsb[High] := 0x2F, 0x24, 0x32;
      } else if speed == Mps1 {
        lsb[Low], lsb[Medium], lsb[High] := 0x2D, 0x26, 0x30;
      } else if speed == Mps2 {
        lsb[Low], lsb[Medium], lsb[High] := 0x2B, 0x20, 0x36;
      } else if speed == Mps4 {
        lsb[Low], lsb[Medium], lsb[High] := 0x29, 0x22, 0x34;
      } else if speed == Mps10 {
        lsb[Low], lsb[Medium], lsb[High] := 0x2A, 0x21, 0x37;
      } else {
        return InvalidParam;
      }
      var cmd := Command(msb[speed], lsb[rep]);
      assert cmd == PeriodicCommand(speed, rep);
      var code := bus.Send(addressI2C, cmd.Frame());
      if code != 0 {
        return Fail;
      }
      mode := Periodic;
      this.speed := speed;
      repeatability := rep;
      r := Ok;
    }

    /** SHT3x_SetModeART: sends 0x2B32 and, on success, changes only the mode. */
    method SetModeArt() returns (r: Result)
      requires platformSend
      modifies this`mode, bus
      ensures Control.CommandSent(bus, addressI2C, StartArt, r)
      ensures mode == (if r == Ok then Art else old(mode))
    {
      var code := bus.Send(addressI2C, StartArt.Frame());
      if code != 0 {
        return Fail;
      }
      mode := Art;
      r := Ok;
    }

    /**
     * SHT3x_ReadSample. In single-shot mode: a stored repeatability outside
     * Low, Medium, High is refused before any bus traffic; otherwise the
     * non-stretching single-shot command is sent and, if that succeeds, the
     * zeroed buffer is polled; a buffer whose two CRC bytes are both 0
     * afterwards is reported as Fail. In periodic and ART mode: one fetch
     * command and one receive, a NACK reported as NoData. Whatever frame is
     * then decoded goes through the raw counts, the two CRC checks and the
     * conversion; the handler itself is not changed.
     */
    method ReadSample(sample: Sample) returns (r: Result)
      requires platformSend && platformReceive && platformDelay && platformCrc.Some?
      modifies bus, sample
      ensures mode == SingleShot && !ValidRepeatability(repeatability) ==>
        && r == InvalidParam && bus.log == old(bus.log)
        && bus.sends == old(bus.sends) && bus.receives == old(bus.receives) && unchanged(sample)
      ensures mode == SingleShot && ValidRepeatability(repeatability) ==>
        var cmd := SingleShotCommand(NoClockStretching, repeatability).value;
        var sent := old(bus.log) + [Sent(addressI2C, cmd.Frame())];
        var k0 := old(bus.receives);
        && bus.sends == old(bus.sends) + 1
        && if bus.sendReply(old(bus.sends)) != 0 then
             r == Fail && bus.log == sent && bus.receives == k0 && unchanged(sample)
           else
             && bus.log == sent + PollLog(addressI2C, bus.receiveReply, k0, pollAttempts)
             && bus.receives == k0 + Attempts(bus.receiveReply, k0, pollAttempts)
             && var buf := PollBuffer(ZeroFrame, bus.receiveReply, k0, pollAttempts);
                if buf[2] == 0 && buf[5] == 0 then r == Fail && unchanged(sample)
                else Stored(sample, buf, platformCrc.value, r)
      ensures mode != SingleShot ==>
        var sent := old(bus.log) + [Sent(addressI2C, FetchData.Frame())];
        var k0 := old(bus.receives);
        && bus.sends == old(bus.sends) + 1
        && if bus.sendReply(old(bus.sends)) != 0 then
             r == Fail && bus.log == sent && bus.receives == k0 && unchanged(sample)
           else
             && bus.log == sent + [Received(addressI2C, FrameLength)]
             && bus.receives == k0 + 1
             && var reply := bus.receiveReply(k0);
                if reply.code == Nack then r == NoData && unchanged(sample)
                else if reply.code != 0 then r == Fail && unchanged(sample)
                else Stored(sample, Overlay(ZeroFrame, reply.written, FrameLength), platformCrc.value, r)
    {
      var buf := new byte[FrameLength](_ => 0);
      assert buf[..] == ZeroFrame;
      if mode == SingleShot {
        var cmd := SingleShotCommand(NoClockStretching, repeatability);
        if cmd.None? {
          return InvalidParam;
        }
        var code := bus.Send(addressI2C, cmd.value.Frame());
        if code != 0 {
          return Fail;
        }
        var _ := Poll(bus, addressI2C, buf, pollAttempts);
        if buf[2] == 0 && buf[5] == 0 {
          return Fail;
        }
      } else {
        var code := bus.Send(addressI2C, FetchData.Frame());
        if code != 0 {
          return Fail;
        }
        code := bus.Receive(addressI2C, buf, FrameLength);
        if code == Nack {
          return NoData;
        } else if code != 0 {
          return Fail;
        }
      }
      ghost var checked;
      r, checked := StoreSample(sample, buf, platformCrc.value);
    }

    /**
     * SHT3x_Init: the address is resolved first, whatever else happens.
     * Missing send, receive or delay capabilities give InvalidParam before
     * any platform call; a missing CRC capability is replaced by the
     * always-accepting default; a bound platform init that fails gives Fail.
     * Then single-shot/Low is armed (its result ignored), the soft reset is
     * sent (Fail if that send fails) and a 2 ms delay follows it.
     */
    method Init(selector: byte) returns (r: Result)
      modifies this`addressI2C, this`mode, this`repeatability, this`platformCrc, bus
      ensures addressI2C == ResolveAddress(old(addressI2C), selector)
      ensures bus.receives == old(bus.receives)
      ensures !(platformSend && platformReceive && platformDelay) ==>
        && r == InvalidParam && bus.log == old(bus.log) && bus.sends == old(bus.sends)
        && platformCrc == old(platformCrc) && mode == old(mode) && repeatability == old(repeatability)
      ensures platformSend && platformReceive && platformDelay ==>
        && platformCrc == (if old(platformCrc).None? then Some(CheckCrc) else old(platformCrc))
        && var s0 := old(bus.sends);
           var called := old(bus.log) + (if platformInit then [InitCalled] else []);
           if platformInit && bus.initReply != 0 then
             && r == Fail && bus.log == called && bus.sends == s0
             && mode == old(mode) && repeatability == old(repeatability)
           else
             && bus.sends == s0 + 2
             && bus.log == called + [Sent(addressI2C, StopPeriodic.Frame()), Sent(addressI2C, SoftReset.Frame())]
                           + (if bus.sendReply(s0 + 1) == 0 then [Delayed(2)] else [])
             && (if bus.sendReply(s0) == 0 then mode == SingleShot && repeatability == Low
                 else mode == old(mode) && repeatability == old(repeatability))
             && r == (if bus.sendReply(s0 + 1) == 0 then Ok else Fail)
    {
      var _ := SetAddressI2C(selector);
      if !platformSend || !platformReceive || !platformDelay {
        return InvalidParam;
      }
      if platformCrc.None? {
        platformCrc := Some(CheckCrc);
      }
      if platformInit {
        var code := bus.Init();
        if code != 0 {
          return Fail;
        }
      }
      var _ := SetModeSingleShot(Low);
      var code := bus.Send(addressI2C, SoftReset.Frame());
      if code != 0 {
        return Fail;
      }
      var _ := bus.Delay(2);
      r := Ok;
    }

    /** SHT3x_DeInit: calls the platform deinit only when that slot is bound. */
    method DeInit() returns (r: Result)
      modifies bus
      ensures bus.sends == old(bus.sends) && bus.receives == old(bus.receives)
      ensures !platformDeInit ==> r == Ok && bus.log == old(bus.log)
      ensures platformDeInit ==>
        bus.log == old(bus.log) + [DeInitCalled] && r == (if bus.deInitReply == 0 then Ok else Fail)
    {
      if platformDeInit {
        var code := bus.DeInit();
        if code != 0 {
          return Fail;
        }
      }
      r := Ok;
    }

    /** SHT3x_SetAddressI2C: always Ok; unrecognised selectors keep the address. */
    method SetAddressI2C(selector: byte) returns (r: Result)
      modifies this`addressI2C
      ensures addressI2C == ResolveAddress(old(addressI2C), selector) && r == Ok
    {
      if selector == 0 || selector == AddressA || selector == WriteFrame(AddressA) {
        addressI2C := AddressA;
      } else if selector == 1 || selector == AddressB || selector == WriteFrame(AddressB) {
        addressI2C := AddressB;
      }
      r := Ok;
    }

    /** SHT3x_ReadStatus */
    method ReadStatus() returns (r: Result, status: Option<uint16>, ghost stale: seq<byte>)
      requires platformSend && platformReceive && platformCrc.Some?
      modifies bus
      ensures Control.StatusReadDone(bus, addressI2C, platformCrc.value, r, status, stale)
    {
      r, status, stale := Control.ReadStatus(bus, addressI2C, platformCrc.value);
    }

    /** SHT3x_ClearStatus */
    method ClearStatus() returns (r: Result)
      requires platformSend
      modifies bus
      ensures Control.CommandSent(bus, addressI2C, StatusClear, r)
    {
      r := Control.ClearStatus(bus, addressI2C);
    }

    /** SHT3x_SetHeater */
    method SetHeater(heater: byte) returns (r: Result)
      requires platformSend
      modifies bus
      ensures Control.CommandSent(bus, addressI2C, Control.HeaterCommand(heater), r)
    {
      r := Control.SetHeater(bus, addressI2C, heater);
    }
  }
}
