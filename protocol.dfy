/**
 * The sensor's wire vocabulary, common to both driver variants: the two bus
 * addresses, the parameter codes of the measurement modes, and the two-byte
 * command words, sent most significant byte first.
 */
module Protocol {
  import opened Types

  /** Bus address with the ADDR pin tied to VSS. */
  const AddressA: byte := 0x44
  /** Bus address with the ADDR pin tied to VDD. */
  const AddressB: byte := 0x45

  /**
   * The first byte a controller puts on the bus to write to a 7-bit
   * address: the address followed by a 0 R/W bit (section 3.1.10 of the
   * I2C-bus specification UM10204).
   */
  function WriteFrame(addr: byte): (f: byte)
    requires addr < 0x80
    ensures f as int / 2 == addr as int && f as int % 2 == 0
  {
    addr * 2
  }

  /** SHT3x_Repeatability_t */
  const Low: int := 0
  const Medium: int := 1
  const High: int := 2

  predicate ValidRepeatability(rep: int) { Low <= rep <= High }

  /** SHT3x_Speed_t: measurements per second in periodic mode. */
  const Mps05: int := 0
  const Mps1: int := 1
  const Mps2: int := 2
  const Mps4: int := 3
  const Mps10: int := 4

  predicate ValidSpeed(speed: int) { Mps05 <= speed <= Mps10 }

  /** A two-byte command. */
  datatype Command = Command(msb: byte, lsb: byte) {
    /** The bytes on the wire, MSB first. */
    function Frame(): seq<byte> { [msb, lsb] }

    /** The 16-bit code as the datasheet writes it. */
    function Word(): uint16 { Be16(msb, lsb) }
  }

  const StopPeriodic := Command(0x30, 0x93)
  const SoftReset := Command(0x30, 0xA2)
  const StartArt := Command(0x2B, 0x32)
  const FetchData := Command(0xE0, 0x00)
  const HeaterOn := Command(0x30, 0x6D)
  const HeaterOff := Command(0x30, 0x66)
  const StatusRead := Command(0xF3, 0x2D)
  const StatusClear := Command(0x30, 0x41)

  /**
   * The single-shot measurement command for a repeatability code, from the
   * clock-stretching table (MSB 0x2C) or the non-stretching one (MSB 0x24);
   * None for a code outside Low, Medium, High.
   */
  function SingleShotCommand(clockStretching: bool, rep: int): (c: Option<Command>)
    ensures c.Some? <==> ValidRepeatability(rep)
    ensures c.Some? ==> c.value.msb == (if clockStretching then 0x2C else 0x24)
  {
    if clockStretching then
      if rep == Low then Some(Command(0x2C, 0x10))
      else if rep == Medium then Some(Command(0x2C, 0x0D))
      else if rep == High then Some(Command(0x2C, 0x06))
      else None
    else
      if rep == Low then Some(Command(0x24, 0x16))
      else if rep == Medium then Some(Command(0x24, 0x0B))
      else if rep == High then Some(Command(0x24, 0x00))
      else None
  }

  /**
   * The periodic table's MSB names the speed alone: 0x20 + speed for the
   * four slower speeds, and 0x27 for 10 mps.
   */
  function PeriodicMsb(speed: int): (m: byte)
    requires ValidSpeed(speed)
    ensures 0x20 <= m <= 0x27
    ensures speed < Mps10 ==> m as int == 0x20 + speed
    ensures m == 0x27 <==> speed == Mps10
  {
    [0x20, 0x21, 0x22, 0x23, 0x27][speed]
  }

  /**
   * The periodic table's LSB, by speed and repeatability. Its range alone
   * tells the repeatability: 0x29..0x2F for Low, 0x20..0x26 for Medium and
   * 0x30..0x37 for High.
   */
  function PeriodicLsb(speed: int, rep: int): (l: byte)
    requires ValidSpeed(speed) && ValidRepeatability(rep)
    ensures rep == Low <==> 0x29 <= l <= 0x2F
    ensures rep == Medium <==> 0x20 <= l <= 0x26
    ensures rep == High <==> 0x30 <= l <= 0x37
  {
    [[0x2F, 0x24, 0x32],
     [0x2D, 0x26, 0x30],
     [0x2B, 0x20, 0x36],
     [0x29, 0x22, 0x34],
     [0x2A, 0x21, 0x37]][speed][rep]
  }

  /** The datasheet's periodic acquisition table, indexed by speed and repeatability. */
  function PeriodicCommand(speed: int, rep: int): (c: Command)
    requires ValidSpeed(speed) && ValidRepeatability(rep)
    ensures 0x2020 <= c.Word() <= 0x2737
  {
    Command(PeriodicMsb(speed), PeriodicLsb(speed, rep))
  }

  /** The fifteen words of the periodic table, speed by speed, low to high repeatability. */
  lemma PeriodicWords()
    ensures PeriodicCommand(Mps05, Low).Word() == 0x202F && PeriodicCommand(Mps05, Medium).Word() == 0x2024
    ensures PeriodicCommand(Mps05, High).Word() == 0x2032
    ensures PeriodicCommand(Mps1, Low).Word() == 0x212D && PeriodicCommand(Mps1, Medium).Word() == 0x2126
    ensures PeriodicCommand(Mps1, High).Word() == 0x2130
    ensures PeriodicCommand(Mps2, Low).Word() == 0x222B && PeriodicCommand(Mps2, Medium).Word() == 0x2220
    ensures PeriodicCommand(Mps2, High).Word() == 0x2236
    ensures PeriodicCommand(Mps4, Low).Word() == 0x2329 && PeriodicCommand(Mps4, Medium).Word() == 0x2322
    ensures PeriodicCommand(Mps4, High).Word() == 0x2334
    ensures PeriodicCommand(Mps10, Low).Word() == 0x272A && PeriodicCommand(Mps10, Medium).Word() == 0x2721
    ensures PeriodicCommand(Mps10, High).Word() == 0x2737
  {
  }

  /**
   * Every entry of the periodic table starts with its speed's MSB, and the
   * fifteen command words are pairwise distinct: the word sent identifies
   * both parameters.
   */
  lemma PeriodicTableInjective(s1: int, r1: int, s2: int, r2: int)
    requires ValidSpeed(s1) && ValidRepeatability(r1)
    requires ValidSpeed(s2) && ValidRepeatability(r2)
    ensures PeriodicCommand(s1, r1).msb == PeriodicMsb(s1)
    ensures PeriodicCommand(s1, r1).Word() == PeriodicCommand(s2, r2).Word() ==> s1 == s2 && r1 == r2
  {
  }

  /**
   * No periodic command collides with a single-shot command or with any
   * of the fixed commands, so the mode a command starts is unambiguous.
   */
  lemma PeriodicDistinctFromOthers(speed: int, rep: int, stretch: bool, r: int)
    requires ValidSpeed(speed) && ValidRepeatability(rep) && ValidRepeatability(r)
    ensures PeriodicCommand(speed, rep) !in
      {SingleShotCommand(stretch, r).value, StopPeriodic, SoftReset, StartArt, FetchData,
       HeaterOn, HeaterOff, StatusRead, StatusClear}
  {
  }

  /** The single-shot words of the datasheet, for both tables. */
  lemma SingleShotWords()
    ensures SingleShotCommand(false, Low).value.Word() == 0x2416
    ensures SingleShotCommand(false, Medium).value.Word() == 0x240B
    ensures SingleShotCommand(false, High).value.Word() == 0x2400
    ensures SingleShotCommand(true, Low).value.Word() == 0x2C10
    ensures SingleShotCommand(true, Medium).value.Word() == 0x2C0D
    ensures SingleShotCommand(true, High).value.Word() == 0x2C06
  {
  }
}
