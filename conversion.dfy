/**
 * The measurement sample and its decoding: the raw counts are taken
 * big-endian from a six-byte frame [T_hi, T_lo, T_crc, H_hi, H_lo, H_crc],
 * checked against their CRC bytes, and converted to physical units with the
 * sensor's linear transfer functions (over the reals: floating-point
 * rounding is not modelled).
 */
module Conversion {
  import opened Types
  import opened Platform

  /** Largest raw count, the full scale of both channels. */
  const FullScale: real := 65535.0

  /** Length of a measurement frame. */
  const FrameLength: nat := 6

  function Celsius(raw: uint16): (c: real)
    ensures -45.0 <= c <= 130.0
  {
    raw as real / FullScale * 175.0 - 45.0
  }

  function Fahrenheit(raw: uint16): (f: real)
    ensures -49.0 <= f <= 266.0
  {
    raw as real / FullScale * 315.0 - 49.0
  }

  function HumidityPercent(raw: uint16): (h: real)
    ensures 0.0 <= h <= 100.0
  {
    raw as real / FullScale * 100.0
  }

  /** The end points of the scales: raw 0 and raw 65535. */
  lemma ScaleEndPoints()
    ensures Celsius(0) == -45.0 && Celsius(65535) == 130.0
    ensures Fahrenheit(0) == -49.0 && Fahrenheit(65535) == 266.0
    ensures HumidityPercent(0) == 0.0 && HumidityPercent(65535) == 100.0
  {
  }

  /** The two temperature scales agree: F = C * 9/5 + 32. */
  lemma FahrenheitOfCelsius(raw: uint16)
    ensures Fahrenheit(raw) == Celsius(raw) * 9.0 / 5.0 + 32.0
  {
  }

  /** All three conversions are strictly increasing in the raw count. */
  lemma ConversionsIncreasing(a: uint16, b: uint16)
    requires a < b
    ensures Celsius(a) < Celsius(b)
    ensures Fahrenheit(a) < Fahrenheit(b)
    ensures HumidityPercent(a) < HumidityPercent(b)
  {
  }

  /** SHT3x_Sample_t */
  class Sample {
    var tempRaw: uint16
    var humRaw: uint16
    var tempCelsius: real
    var tempFahrenheit: real
    var humidityPercent: real

    /** A zero-initialised sample, as the callers declare it. */
    constructor ()
      ensures tempRaw == 0 && humRaw == 0
      ensures tempCelsius == 0.0 && tempFahrenheit == 0.0 && humidityPercent == 0.0
    {
      tempRaw, humRaw := 0, 0;
      tempCelsius, tempFahrenheit, humidityPercent := 0.0, 0.0, 0.0;
    }
  }

  /** SHT3x_ConvSample: the derived fields from the raw ones. */
  method ConvSample(s: Sample)
    modifies s`tempCelsius, s`tempFahrenheit, s`humidityPercent
    ensures s.humidityPercent == HumidityPercent(s.humRaw)
    ensures s.tempCelsius == Celsius(s.tempRaw)
    ensures s.tempFahrenheit == Fahrenheit(s.tempRaw)
  {
    s.humidityPercent := s.humRaw as real / FullScale * 100.0;
    var tempBuff := s.tempRaw as real / FullScale;
    s.tempCelsius := tempBuff * 175.0 - 45.0;
    s.tempFahrenheit := tempBuff * 315.0 - 49.0;
  }

  /** The raw temperature count of a frame: bytes 0 and 1, most significant first. */
  function TempWord(frame: seq<byte>): (w: uint16)
    requires |frame| == FrameLength
    ensures w as int / 0x100 == frame[0] as int && w as int % 0x100 == frame[1] as int
  {
    Be16(frame[0], frame[1])
  }

  /** The raw humidity count of a frame: bytes 3 and 4, most significant first. */
  function HumWord(frame: seq<byte>): (w: uint16)
    requires |frame| == FrameLength
    ensures w as int / 0x100 == frame[3] as int && w as int % 0x100 == frame[4] as int
  {
    Be16(frame[3], frame[4])
  }

  /**
   * The verdict of the two CRC checks on a frame: Ok exactly when both the
   * temperature word and the humidity word match their CRC bytes.
   */
  function FrameCheck(frame: seq<byte>, crc: CrcCheck): (r: Result)
    requires |frame| == FrameLength
    ensures r == Ok || r == CrcError
    ensures r == Ok <==> crc(TempWord(frame), frame[2]) == 0 && crc(HumWord(frame), frame[5]) == 0
  {
    if crc(TempWord(frame), frame[2]) != 0 then CrcError
    else if crc(HumWord(frame), frame[5]) != 0 then CrcError
    else Ok
  }

  /** A checker that rejects every word makes every frame a CRC error. */
  lemma RejectingCrcRejectsFrames(frame: seq<byte>, crc: CrcCheck)
    requires |frame| == FrameLength
    requires forall w: uint16, b: byte :: crc(w, b) != 0
    ensures FrameCheck(frame, crc) == CrcError
  {
  }

  /** A checker that accepts every word accepts every frame, whatever bytes it holds. */
  lemma AcceptingCrcAcceptsFrames(frame: seq<byte>, crc: CrcCheck)
    requires |frame| == FrameLength
    requires forall w: uint16, b: byte :: crc(w, b) == 0
    ensures FrameCheck(frame, crc) == Ok
  {
  }

  /**
   * What decoding `frame` into `s` leaves behind: both raw counts are
   * written whatever the CRC verdict, and the derived fields are written
   * only when the verdict is Ok.
   */
  twostate predicate Stored(s: Sample, frame: seq<byte>, crc: CrcCheck, r: Result)
    requires |frame| == FrameLength
    reads s
  {
    && s.tempRaw == TempWord(frame)
    && s.humRaw == HumWord(frame)
    && r == FrameCheck(frame, crc)
    && if r == Ok then
         && s.tempCelsius == Celsius(s.tempRaw)
         && s.tempFahrenheit == Fahrenheit(s.tempRaw)
         && s.humidityPercent == HumidityPercent(s.humRaw)
       else
         && s.tempCelsius == old(s.tempCelsius)
         && s.tempFahrenheit == old(s.tempFahrenheit)
         && s.humidityPercent == old(s.humidityPercent)
  }

  /**
   * The decoding tail of every sample read: raw counts first, then the
   * temperature CRC, then the humidity CRC, then the conversion. The ghost
   * `checked` lists the words handed to the CRC capability, in order: the
   * humidity word is checked only when the temperature word passed.
   */
  method StoreSample(s: Sample, buf: array<byte>, crc: CrcCheck) returns (r: Result, ghost checked: seq<uint16>)
    requires buf.Length == FrameLength
    modifies s
    ensures Stored(s, buf[..], crc, r)
    ensures checked == [TempWord(buf[..])] + (if crc(TempWord(buf[..]), buf[2]) == 0 then [HumWord(buf[..])] else [])
  {
    s.tempRaw := Be16(buf[0], buf[1]);
    s.humRaw := Be16(buf[3], buf[4]);
    checked := [s.tempRaw];
    if crc(s.tempRaw, buf[2]) != 0 {
      return CrcError, checked;
    }
    checked := checked + [s.humRaw];
    if crc(s.humRaw, buf[5]) != 0 {
      return CrcError, checked;
    }
    ConvSample(s);
    r := Ok;
  }
}
