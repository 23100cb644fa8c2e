/** Register map, key sequences and sampling modes of the CCS811. */
module Ccs811Registers {
  import opened Bytes

  /** The chip's two possible bus addresses; the driver uses the first. */
  const SLAVEADDR_0: nat := 0x5A
  const SLAVEADDR_1: nat := 0x5B

  // Registers and mailboxes; one byte wide unless the comment says otherwise.
  const STATUS: Byte := 0x00
  const ERR: Byte := 0xE0
  const MEAS_MODE: Byte := 0x01
  const ALG_RESULT_DATA: Byte := 0x02  // up to 8 bytes
  const ENV_DATA: Byte := 0x05         // 4 bytes
  const BASELINE: Byte := 0x11         // 2 bytes
  const HW_ID: Byte := 0x20
  const HW_VERSION: Byte := 0x21
  const FW_BOOT_VERSION: Byte := 0x23  // 2 bytes
  const FW_APP_VERSION: Byte := 0x24   // 2 bytes
  const APP_ERASE: Byte := 0xF1        // 4 bytes
  const APP_DATA: Byte := 0xF2         // 9 bytes
  const APP_VERIFY: Byte := 0xF3       // 0 bytes
  const APP_START: Byte := 0xF4        // 0 bytes
  const SW_RESET: Byte := 0xFF         // 4 bytes

  // Bits of the status register.
  const STATUS_APP_MODE: Byte := 0x80    // else boot mode
  const STATUS_APP_ERASE: Byte := 0x40   // else no erase completed
  const STATUS_APP_VERIFY: Byte := 0x20  // else no verify completed
  const STATUS_APP_VALID: Byte := 0x10   // else no valid application firmware

  /** The value the hardware-ID register must hold. */
  const HW_ID_EXPECTED: Byte := 0x81

  /** Written to SW_RESET to reset the chip. */
  const RESET_KEY: seq<Byte> := [0x11, 0xE5, 0x72, 0x8A]

  /** Written to APP_ERASE to erase the application firmware. */
  const ERASE_KEY: seq<Byte> := [0xE7, 0xA7, 0xE6, 0x09]

  // Settle times, in microseconds, after the operations that need one.
  const WAIT_AFTER_RESET_US: nat := 2000
  const WAIT_AFTER_APPSTART_US: nat := 1000
  const WAIT_AFTER_APPERASE_US: nat := 500_000

  /** The sampling interval the chip is put in. */
  datatype Mode = Idle | Sec1 | Sec10 | Sec60

  /** The enum's discriminant, `mode as u8`. */
  function ModeValue(mode: Mode): (v: Byte)
    ensures v <= 3
  {
    match mode
    case Idle => 0
    case Sec1 => 1
    case Sec10 => 2
    case Sec60 => 3
  }

  /** The byte written to MEAS_MODE: `(mode as u8) << 4`. */
  function MeasModeByte(mode: Mode): (b: Byte)
    ensures b & 0x0F == 0
    ensures b >> 4 == ModeValue(mode)
    ensures b & 0xC0 == 0
  {
    ModeValue(mode) << 4
  }

  /** The four modes occupy 0x00, 0x10, 0x20 and 0x30. */
  lemma MeasModeBytes()
    ensures MeasModeByte(Idle) == 0x00 && MeasModeByte(Sec1) == 0x10
    ensures MeasModeByte(Sec10) == 0x20 && MeasModeByte(Sec60) == 0x30
  {
  }

  /** Distinct modes are written as distinct bytes. */
  lemma MeasModeByteInjective(a: Mode, b: Mode)
    ensures MeasModeByte(a) == MeasModeByte(b) <==> a == b
  {
    assert ModeValue(a) == MeasModeByte(a) >> 4;
    assert ModeValue(b) == MeasModeByte(b) >> 4;
  }
}
