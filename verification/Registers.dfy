/**
 The register map of a cycler chassis and the codecs that pack values into its 16-bit words.
 The setpoint words carry a binary32 value (section 3.4 of IEEE 754-2008), high word first.
 */
module Registers {
  import opened Prelude
  import opened Models

  const BLOCK := 50
  const CHASSIS_BASE := 10000

  // Offsets within a channel's block
  const MODE := 0
  const SETPOINT_HI := 1
  const SETPOINT_LO := 2
  const VOLTAGE_MV := 10
  const CURRENT_MA := 11
  const TEMP_DC := 12
  const SOC_PCTH := 13
  const SOH_PCTH := 14
  const SAFETY_V_MAX_MV := 20
  const SAFETY_T_MAX_DC := 21
  const WATCHDOG_KICK := 30
  const WATCHDOG_STATUS := 31
  const LAST_ERROR := 40
  const CYCLE_COUNT := 41

  // Chassis registers
  const CHASSIS_ID := 10000
  const FIRMWARE_VERSION := 10001
  const TOTAL_CHANNELS := 10002
  const PROTOCOL_VERSION := 10005
  const CHASSIS_WATCHDOG_STATUS := 10003
  const CHASSIS_WATCHDOG_KICK := 10004
  const CHEMISTRY := 10010

  function Reg(idx: nat, offset: nat): nat {
    idx * BLOCK + offset
  }

  predicate IsWord(w: int) {
    0 <= w < 0x1_0000
  }

  // ---- Enumerations ---------------------------------------------------------------------------

  function ModeWord(m: Mode): int {
    match m
    case Idle => 0
    case CC => 1
    case CV => 2
    case CP => 3
    case Rest => 4
  }

  /** An unknown mode word reads as idle. */
  function WordMode(w: int): Mode {
    if w == 1 then CC else if w == 2 then CV else if w == 3 then CP else if w == 4 then Rest else Idle
  }

  function ErrorWord(e: Error): int {
    match e
    case NoError => 0
    case OverVoltage => 1
    case OverTemp => 2
    case WatchdogTimeout => 3
    case InternalShort => 4
    case ThermalRunaway => 5
    case DeadCell => 6
  }

  /** An unknown error word reads as no error. */
  function WordError(w: int): Error {
    if w == 1 then OverVoltage else if w == 2 then OverTemp else if w == 3 then WatchdogTimeout
    else if w == 4 then InternalShort else if w == 5 then ThermalRunaway else if w == 6 then DeadCell
    else NoError
  }

  /** Every mode and error survives the wire, and a word that is no code reads as idle or no error. */
  lemma CodesReadBack(m: Mode, e: Error, w: int)
    ensures WordMode(ModeWord(m)) == m && WordError(ErrorWord(e)) == e
    ensures 0 <= ModeWord(m) <= 4 && 0 <= ErrorWord(e) <= 6
    ensures if 0 <= w <= 4 then ModeWord(WordMode(w)) == w else WordMode(w) == Idle
    ensures if 0 <= w <= 6 then ErrorWord(WordError(w)) == w else WordError(w) == NoError
  {
  }

  // ---- binary32 in two words --------------------------------------------------------------------

  /** Rounding to binary32 and reading a word back, as functions; only finite values occur. */
  datatype F32 = F32(bits: real -> int, value: int -> real) {
    ghost predicate Lawful() {
      && (forall x: real :: 0 <= bits(x) < 0x1_0000_0000)
      && (forall w: int :: 0 <= w < 0x1_0000_0000 ==> value(bits(value(w))) == value(w))
      && value(bits(0.0)) == 0.0
    }

    function Round(x: real): real {
      value(bits(x))
    }
  }

  function EncodeHi(f: F32, x: real): int {
    f.bits(x) / 0x1_0000
  }

  function EncodeLo(f: F32, x: real): int {
    f.bits(x) % 0x1_0000
  }

  function DecodeF32(f: F32, hi: int, lo: int): real {
    f.value((hi % 0x1_0000) * 0x1_0000 + lo % 0x1_0000)
  }

  /** The words of x hold its pattern, high word first, and read back as x rounded once; whatever two
      words say is already rounded. */
  lemma SetpointWords(f: F32, x: real, hi: int, lo: int)
    requires f.Lawful()
    ensures IsWord(EncodeHi(f, x)) && IsWord(EncodeLo(f, x))
    ensures f.bits(x) == EncodeHi(f, x) * 0x1_0000 + EncodeLo(f, x)
    ensures IsWord(hi) && IsWord(lo) ==> DecodeF32(f, hi, lo) == f.value(hi * 0x1_0000 + lo)
    ensures DecodeF32(f, EncodeHi(f, x), EncodeLo(f, x)) == f.Round(x)
    ensures f.Round(DecodeF32(f, hi, lo)) == DecodeF32(f, hi, lo)
    ensures f.Round(f.Round(x)) == f.Round(x)
  {
    assert 0 <= f.bits(x) < 0x1_0000_0000;
    var w := (hi % 0x1_0000) * 0x1_0000 + lo % 0x1_0000;
    assert 0 <= w < 0x1_0000_0000;
    assert f.value(f.bits(f.value(w))) == f.value(w);
  }

  // ---- Scaled integers ------------------------------------------------------------------------------

  /** int() of a float: towards zero. */
  function Trunc(x: real): int {
    if x >= 0.0 then x.Floor else -(-x).Floor
  }

  function U16Clamp(x: real): int {
    var t := Trunc(x);
    if t < 0 then 0 else if t > 0xFFFF then 0xFFFF else t
  }

  function ToInt16(v: int): int {
    (if v < 0 then v + 0x1_0000 else v) % 0x1_0000
  }

  function FromInt16(w: int): int {
    var v := w % 0x1_0000;
    if v >= 0x8000 then v - 0x1_0000 else v
  }

  /** Two's complement survives the trip exactly for the int16 range. */
  lemma Int16RoundTrip(v: int)
    ensures FromInt16(ToInt16(v)) == v <==> -0x8000 <= v < 0x8000
    ensures IsWord(ToInt16(v)) && (FromInt16(ToInt16(v)) - v) % 0x1_0000 == 0
  {
  }

  lemma TruncIs(x: real)
    ensures var t := Trunc(x); t as real - 1.0 < x < t as real + 1.0
    ensures x >= 0.0 ==> Trunc(x) >= 0 && Trunc(x) as real <= x
    ensures x <= 0.0 ==> Trunc(x) <= 0 && x <= Trunc(x) as real
  {
  }

  /** An unsigned quantity is read back within one quantum exactly when it is above minus one
      quantum and below 65536 quanta; anything else reads as an end of the range. */
  lemma UnsignedReadback(x: real)
    ensures Abs(U16Clamp(x) as real - x) < 1.0 <==> -1.0 < x < 65536.0
    ensures x <= 0.0 ==> U16Clamp(x) == 0
    ensures IsWord(U16Clamp(x))
  {
    TruncIs(x);
  }

  lemma SignedReadback(x: real)
    ensures Abs(FromInt16(ToInt16(Trunc(x))) as real - x) < 1.0 <==> -32769.0 < x < 32768.0
  {
    TruncIs(x);
    Int16RoundTrip(Trunc(x));
  }
}
