/**
 * Client-side scenarios: each builds a scripted bus and a handler, drives
 * the public operations the way an application would, and states the
 * outcome the driver's documentation promises for that situation.
 */
module Scenarios {
  import opened Types
  import opened Platform
  import opened Protocol
  import opened Conversion
  import opened Retry
  import opened Sht3x
  import opened Sht3xLegacy

  /** The datasheet's CRC example word 0xBEEF with its CRC byte 0x92, for both channels. */
  const BeefFrame: seq<byte> := [0xBE, 0xEF, 0x92, 0xBE, 0xEF, 0x92]

  /** A bus on which every send succeeds and every receive returns `reply`. */
  method SteadyBus(reply: Reply) returns (bus: Bus)
    ensures fresh(bus)
    ensures bus.log == [] && bus.sends == 0 && bus.receives == 0
    ensures forall n: nat :: bus.sendReply(n) == 0 && bus.receiveReply(n) == reply
    ensures bus.initReply == 0 && bus.deInitReply == 0
  {
    bus := new Bus((n: nat) => 0 as int8, (n: nat) => reply, 0, 0);
  }

  /** An older-driver handler on `bus` whose CRC capability accepts every word. */
  method AcceptingLegacyHandler(bus: Bus) returns (h: LegacyHandler)
    ensures fresh(h) && h.bus == bus && h.addressI2C == 0 && h.pollAttempts == MaxAttempts
    ensures forall w: uint16, b: byte :: h.crc(w, b) == 0
  {
    h := new LegacyHandler(bus, (w: uint16, b: byte) => 0 as int8);
  }

  /** A measurement frame of 0x662E for temperature and 0x7D13 for humidity, with CRC bytes 0xFF. */
  const RoomFrame: seq<byte> := [0x66, 0x2E, 0xFF, 0x7D, 0x13, 0xFF]

  /**
   * Init on address pin 0, periodic mode at 1 mps and high repeatability,
   * then one read: the fetched frame is decoded, accepted by the default CRC
   * capability Init installed, and converted to about 24.85 °C and 48.86 %RH.
   */
  method PeriodicRead() returns (init: Result, periodic: Result, r: Result, tempRaw: uint16, humRaw: uint16,
                                 celsius: real, humidity: real)
    ensures init == Ok && periodic == Ok && r == Ok
    ensures tempRaw == 26158 && humRaw == 32019
    ensures celsius == Celsius(26158) && 24.85 < celsius < 24.86
    ensures humidity == HumidityPercent(32019) && 48.85 < humidity < 48.86
  {
    var bus := SteadyBus(Reply(0, RoomFrame));
    var h := new Handler(bus, false, false, true, true, true, None);
    init := h.Init(0);
    periodic := h.SetModePeriodic(Mps1, High);
    var sample := new Sample();
    assert Overlay(ZeroFrame, RoomFrame, FrameLength) == RoomFrame;
    r := h.ReadSample(sample);
    tempRaw, humRaw := sample.tempRaw, sample.humRaw;
    celsius, humidity := sample.tempCelsius, sample.humidityPercent;
  }

  /**
   * A sensor that never acknowledges a read: the single-shot read polls all
   * twenty times and, its zeroed buffer untouched, reports Fail.
   */
  method SilentSensor() returns (r: Result, receives: nat, tempRaw: uint16)
    ensures r == Fail && receives == MaxAttempts && tempRaw == 0
  {
    var bus := SteadyBus(Reply(-1, []));
    var h := new Handler(bus, false, false, true, true, true, Some(CheckCrc));
    var sample := new Sample();
    SilentSensorReadFails(0, bus.receiveReply, 0, h.pollAttempts);
    r := h.ReadSample(sample);
    receives, tempRaw := bus.receives, sample.tempRaw;
  }

  /** In ART mode a fetch that the sensor does not acknowledge reports NoData after one receive. */
  method NackedFetch() returns (art: Result, r: Result, receives: nat, tempRaw: uint16)
    ensures art == Ok && r == NoData && receives == 1 && tempRaw == 0
  {
    var bus := SteadyBus(Reply(Nack, []));
    var h := new Handler(bus, false, false, true, true, true, Some(CheckCrc));
    art := h.SetModeArt();
    var sample := new Sample();
    r := h.ReadSample(sample);
    receives, tempRaw := bus.receives, sample.tempRaw;
  }

  /**
   * Init with no send capability: the address is still resolved, and the
   * call reports InvalidParam without a single bus transfer.
   */
  method InitWithoutSend() returns (r: Result, address: byte, transfers: nat)
    ensures r == InvalidParam && address == AddressA && transfers == 0
  {
    var bus := SteadyBus(Reply(0, BeefFrame));
    var h := new Handler(bus, false, false, false, true, true, None);
    r := h.Init(0);
    address, transfers := h.addressI2C, bus.sends + bus.receives;
  }

  /**
   * A CRC capability that rejects everything: the sample read reports
   * CrcError yet still leaves the raw counts, and the status read reports
   * CrcError yet still returns the status word.
   */
  method RejectingCrc() returns (r: Result, tempRaw: uint16, humRaw: uint16, rs: Result, status: Option<uint16>)
    ensures r == CrcError && tempRaw == 0xBEEF && humRaw == 0xBEEF
    ensures rs == CrcError && status == Some(0xBEEF)
  {
    var reject: CrcCheck := (w: uint16, b: byte) => 1 as int8;
    var bus := SteadyBus(Reply(0, BeefFrame));
    var h := new Handler(bus, false, false, true, true, true, Some(reject));
    var art := h.SetModeArt();
    var sample := new Sample();
    assert Overlay(ZeroFrame, BeefFrame, FrameLength) == BeefFrame;
    r := h.ReadSample(sample);
    tempRaw, humRaw := sample.tempRaw, sample.humRaw;
    ghost var stale;
    rs, status, stale := h.ReadStatus();
    Control.StatusFromFullReply(stale, BeefFrame);
  }

  /**
   * The older driver on a sensor that never answers, with a CRC capability
   * that accepts the bytes left in the buffer: every receive fails, and the
   * read still reports Ok.
   */
  method LegacyDeadBusReadsOk() returns (r: Result)
    ensures r == Ok
  {
    var bus := SteadyBus(Reply(-1, []));
    var h := AcceptingLegacyHandler(bus);
    var sample := new Sample();
    ghost var stale;
    r, stale := h.ReadSampleSingleShot(sample, Low as byte);
    AcceptingCrcAcceptsFrames(PollBuffer(stale, bus.receiveReply, 0, h.pollAttempts), h.crc);
  }

  /** The same situation with the read that checks its poll: Fail, and the sample untouched. */
  method LegacyDeadBusCheckedFails() returns (r: Result, tempRaw: uint16)
    ensures r == Fail && tempRaw == 0
  {
    var bus := SteadyBus(Reply(-1, []));
    var h := AcceptingLegacyHandler(bus);
    var sample := new Sample();
    PollSucceedsIff(bus.receiveReply, 0, h.pollAttempts);
    ghost var stale;
    r, stale := h.ReadSampleSingleShotChecked(sample, Low as byte);
    tempRaw := sample.tempRaw;
  }
}
