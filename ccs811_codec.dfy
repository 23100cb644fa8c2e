/** The byte-level logic of the CCS811 driver: decoding and checking a
    result block, encoding the environment data, and the tests applied to
    the hardware-ID and status registers. */
module Ccs811Codec {
  import opened Bytes
  import opened Results
  import opened I2c
  import opened Ccs811Registers

  /** The driver operation whose bus exchange failed. */
  datatype Step =
    | SlaveAddress | Reset | AppStart | EraseApp | ReadHwId | ReadStatus
    | SetMode | ReadBaseline | SetBaseline | WriteEnvData | ReadData

  /** The driver's errors, in place of its formatted messages. */
  datatype Error =
    | BusFailure(step: Step, cause: BusError)
    | UnexpectedHwId(found: Byte)
    | StatusMismatch(expected: Byte, found: Byte)
    | ResultError(code: Byte)
    | AboveMax(tVoc: nat, eCo2: nat)

  /** One sample: tVOC in ppb, eCO2 in ppm, and the block it came from. */
  datatype Ccs811Data = Ccs811Data(tVoc: nat, eCo2: nat, raw: seq<Byte>)

  /** Upper plausibility bounds. There is no lower bound. */
  const MAX_TVOC: nat := 1187
  const MAX_ECO2: nat := 8192

  /** Position of the error byte in the result block. */
  const ERROR_ID_INDEX: nat := 5

  /** A big-endian 16-bit quantity. */
  function BigEndian(hi: Byte, lo: Byte): (v: nat)
  {
    hi as nat * 256 + lo as nat
  }

  /** `hi as u16 * 256 + lo as u16`, evaluated in 16-bit arithmetic and
      widened to `u32`. The sum never exceeds 0xFFFF, so it never wraps. */
  function U16FromBytes(hi: Byte, lo: Byte): (v: nat)
    ensures v == BigEndian(hi, lo)
    ensures v <= 0xFFFF
  {
    (hi as Word * 256 + lo as Word) as nat
  }

  /** Decodes and checks an 8-byte ALG_RESULT_DATA block: eCO2 in bytes 0-1,
      tVOC in bytes 2-3, the error byte at 5. */
  function DecodeResult(buffer: seq<Byte>): (r: Result<Ccs811Data, Error>)
    requires |buffer| == 8
    ensures buffer[ERROR_ID_INDEX] != 0 ==> r == Err(ResultError(buffer[ERROR_ID_INDEX]))
    ensures r.Ok? <==>
      && buffer[ERROR_ID_INDEX] == 0
      && BigEndian(buffer[2], buffer[3]) <= MAX_TVOC
      && BigEndian(buffer[0], buffer[1]) <= MAX_ECO2
    ensures r.Ok? ==>
      && r.value.eCo2 == BigEndian(buffer[0], buffer[1])
      && r.value.tVoc == BigEndian(buffer[2], buffer[3])
      && r.value.raw == buffer
    ensures buffer[ERROR_ID_INDEX] == 0 && r.Err? ==>
      r.error == AboveMax(BigEndian(buffer[2], buffer[3]), BigEndian(buffer[0], buffer[1]))
  {
    if buffer[ERROR_ID_INDEX] != 0 then Err(ResultError(buffer[ERROR_ID_INDEX]))
    else
      var data := Ccs811Data(
        eCo2 := U16FromBytes(buffer[0], buffer[1]),
        tVoc := U16FromBytes(buffer[2], buffer[3]),
        raw := buffer);
      if data.tVoc > MAX_TVOC || data.eCo2 > MAX_ECO2 then Err(AboveMax(data.tVoc, data.eCo2))
      else Ok(data)
  }

  /** Whatever the other bytes hold, a non-zero error byte is rejected. */
  lemma ErrorByteRejects(buffer: seq<Byte>)
    requires |buffer| == 8 && buffer[ERROR_ID_INDEX] != 0
    ensures DecodeResult(buffer).Err?
    ensures forall other: seq<Byte> :: |other| == 8 && other[ERROR_ID_INDEX] == buffer[ERROR_ID_INDEX] ==>
      DecodeResult(other) == DecodeResult(buffer)
  {
  }

  /** An eCO2 of 0 passes: the check has no lower bound. */
  lemma ZeroECo2Accepted(tVocHi: Byte, tVocLo: Byte, b4: Byte, b6: Byte, b7: Byte)
    requires BigEndian(tVocHi, tVocLo) <= MAX_TVOC
    ensures DecodeResult([0, 0, tVocHi, tVocLo, b4, 0, b6, b7]).Ok?
    ensures DecodeResult([0, 0, tVocHi, tVocLo, b4, 0, b6, b7]).value.eCo2 == 0
  {
  }

  /** Every accepted sample lies within the bounds. */
  lemma AcceptedWithinBounds(buffer: seq<Byte>)
    requires |buffer| == 8 && DecodeResult(buffer).Ok?
    ensures DecodeResult(buffer).value.tVoc <= MAX_TVOC
    ensures DecodeResult(buffer).value.eCo2 <= MAX_ECO2
  {
  }

  /** The 9-bit fraction `float_to_bytes` has left after its `min(.., 511)`. */
  type Fraction = f: Word | f <= 511

  /** An environment value as `float_to_bytes` splits it: its floor and
      its fraction in units of 1/512. */
  datatype EnvValue = EnvValue(base: int, fraction: Fraction)

  /** `x as u8` for a whole-valued float: Rust saturates at both ends. */
  function SaturateToU8(x: int): (b: Byte)
    ensures 0 <= x < 256 ==> b as int == x
    ensures x < 0 ==> b == 0
    ensures x >= 256 ==> b == 0xFF
  {
    if x < 0 then 0 else if x > 255 then 0xFF else ByteOfInt(x); x as Byte
  }

  /** The bit packing of `float_to_bytes` on the `u8` integer part `b`:
      seven integer bits and the top fraction bit in `hi`, the low eight
      fraction bits in `lo`. */
  function PackBits(b: Byte, fraction: Fraction): (r: seq<Byte>)
    ensures |r| == 2
    ensures r[0] >> 1 == b & 0x7F
    ensures ((r[0] & 1) as Word << 8) | r[1] as Word == fraction
    ensures b < 128 ==> BigEndian(r[0], r[1]) == b as int * 512 + fraction as int
  {
    var hi := ((b & 0x7F) << 1) | ((fraction & 0x100) >> 8) as Byte;
    var lo := (fraction & 0xFF) as Byte;
    PackedWord(b, fraction, hi, lo);
    [hi, lo]
  }

  /** Read as one big-endian word, the packed bytes are `b * 512 + fraction`. */
  lemma PackedWord(b: Byte, fraction: Fraction, hi: Byte, lo: Byte)
    requires hi == ((b & 0x7F) << 1) | ((fraction & 0x100) >> 8) as Byte
    requires lo == (fraction & 0xFF) as Byte
    ensures b < 128 ==> BigEndian(hi, lo) == b as int * 512 + fraction as int
  {
    if b < 128 {
      PackedBitsAsWord(b, fraction, hi, lo);
      WordOfSmallByte(b, fraction);
      assert BigEndian(hi, lo) == U16FromBytes(hi, lo);
    }
  }

  lemma PackedBitsAsWord(b: Byte, fraction: Fraction, hi: Byte, lo: Byte)
    requires b < 128
    requires hi == ((b & 0x7F) << 1) | ((fraction & 0x100) >> 8) as Byte
    requires lo == (fraction & 0xFF) as Byte
    ensures hi as Word * 256 + lo as Word == b as Word * 512 + fraction
  {
  }

  lemma WordOfSmallByte(b: Byte, fraction: Fraction)
    requires b < 128
    ensures (b as Word * 512 + fraction) as int == b as int * 512 + fraction as int
  {
  }

  /** The integer half of `float_to_bytes`: the floor is cast to `u8`, then
      packed with the fraction. Read as a big-endian number, the two bytes
      are the value in units of 1/512. */
  function PackEnvValue(v: EnvValue): (r: seq<Byte>)
    ensures |r| == 2
    ensures r[0] >> 1 == SaturateToU8(v.base) & 0x7F
    ensures ((r[0] & 1) as Word << 8) | r[1] as Word == v.fraction
    ensures 0 <= v.base < 128 ==> BigEndian(r[0], r[1]) == v.base * 512 + v.fraction as int
  {
    PackBits(SaturateToU8(v.base), v.fraction)
  }

  /** The chip's reading of two such bytes. */
  function UnpackEnvValue(hi: Byte, lo: Byte): (v: EnvValue)
    ensures 0 <= v.base < 128
  {
    EnvValue((hi >> 1) as int, ((hi & 1) as Word << 8) | lo as Word)
  }

  /** Within seven integer bits the encoding loses nothing. */
  lemma PackUnpack(v: EnvValue)
    requires 0 <= v.base < 128
    ensures UnpackEnvValue(PackEnvValue(v)[0], PackEnvValue(v)[1]) == v
  {
    var b := SaturateToU8(v.base);
    var r := PackBits(b, v.fraction);
    assert r[0] >> 1 == b by {
      SmallByteMask(b);
    }
    var u := UnpackEnvValue(r[0], r[1]);
    assert u.base == v.base;
  }

  lemma SmallByteMask(b: Byte)
    requires b < 128
    ensures b & 0x7F == b
  {
  }

  /** Every pair of bytes is the encoding of exactly one value. */
  lemma UnpackPack(hi: Byte, lo: Byte)
    ensures PackEnvValue(UnpackEnvValue(hi, lo)) == [hi, lo]
  {
    var v := UnpackEnvValue(hi, lo);
    var b := hi >> 1;
    IntOfByte(b);
    assert SaturateToU8(v.base) == b;
    RepackBits(hi, lo);
  }

  lemma RepackBits(hi: Byte, lo: Byte)
    ensures PackBits(hi >> 1, ((hi & 1) as Word << 8) | lo as Word) == [hi, lo]
  {
  }

  /** The integer part is not range-checked: 128 to 255 wrap around to
      0 to 127, and anything above 255 saturates to 127. */
  lemma PackWrapsIntegerPart(v: EnvValue)
    requires 128 <= v.base
    ensures v.base < 256 ==> PackEnvValue(v) == PackEnvValue(EnvValue(v.base - 128, v.fraction))
    ensures v.base >= 256 ==> PackEnvValue(v) == PackEnvValue(EnvValue(127, v.fraction))
  {
    if v.base < 256 {
      var w := SaturateToU8(v.base - 128);
      assert SaturateToU8(v.base) == w + 128;
      HighBitIgnored(w, v.fraction);
    } else {
      assert SaturateToU8(127) == 0x7F;
      SaturatedPacking(v.fraction);
    }
  }

  lemma HighBitIgnored(w: Byte, fraction: Fraction)
    requires w < 128
    ensures PackBits(w + 128, fraction) == PackBits(w, fraction)
  {
  }

  lemma SaturatedPacking(fraction: Fraction)
    ensures PackBits(0xFF, fraction) == PackBits(0x7F, fraction)
  {
  }

  /** The ENV_DATA payload: humidity first, then temperature. */
  function EnvPayload(humidity: EnvValue, temperature: EnvValue): (r: seq<Byte>)
    ensures |r| == 4
    ensures r[..2] == PackEnvValue(humidity) && r[2..] == PackEnvValue(temperature)
  {
    PackEnvValue(humidity) + PackEnvValue(temperature)
  }

  /** Both values are recovered from the payload. */
  lemma EnvPayloadRoundTrip(humidity: EnvValue, temperature: EnvValue)
    requires 0 <= humidity.base < 128 && 0 <= temperature.base < 128
    ensures var p := EnvPayload(humidity, temperature);
      UnpackEnvValue(p[0], p[1]) == humidity && UnpackEnvValue(p[2], p[3]) == temperature
  {
    var p := EnvPayload(humidity, temperature);
    assert p[0] == p[..2][0] && p[1] == p[..2][1];
    assert p[2] == p[2..][0] && p[3] == p[2..][1];
    PackUnpack(humidity);
    PackUnpack(temperature);
  }

  /** The hardware-ID test. */
  function HwIdCheck(id: Byte): (r: Outcome<Error>)
    ensures r.Ok? <==> id == HW_ID_EXPECTED
    ensures r.Err? ==> r.error == UnexpectedHwId(id)
  {
    if id != HW_ID_EXPECTED then Err(UnexpectedHwId(id)) else Ok(())
  }

  /** Bit `k` of `b`. */
  predicate BitSet(b: Byte, k: nat)
    requires k < 8
  {
    (b >> k) & 1 == 1
  }

  /** The status test: passes when `status` has at least one of the
      `expected` bits. */
  function StatusCheck(status: Byte, expected: Byte): (r: Outcome<Error>)
    ensures r.Err? <==> status & expected == 0
    ensures r.Err? ==> r.error == StatusMismatch(expected, status)
    ensures expected != 0 && status & expected == expected ==> r.Ok?
  {
    if status & expected == 0 then Err(StatusMismatch(expected, status)) else Ok(())
  }

  /** The status test is "some expected bit is set", bit by bit. */
  lemma StatusCheckAnyBit(status: Byte, expected: Byte)
    ensures StatusCheck(status, expected).Ok? <==>
      exists k :: 0 <= k < 8 && BitSet(status, k) && BitSet(expected, k)
  {
    var c := status & expected;
    if c != 0 {
      var k := if c & 0x01 != 0 then 0 else if c & 0x02 != 0 then 1
        else if c & 0x04 != 0 then 2 else if c & 0x08 != 0 then 3
        else if c & 0x10 != 0 then 4 else if c & 0x20 != 0 then 5
        else if c & 0x40 != 0 then 6 else 7;
      assert BitSet(status, k) && BitSet(expected, k);
    } else {
      forall k | 0 <= k < 8
        ensures !(BitSet(status, k) && BitSet(expected, k))
      {
        assert (c >> k) & 1 == 0;
      }
    }
  }

  /** The mask `begin` uses: application mode or verify complete. */
  const BEGIN_STATUS_MASK: Byte := STATUS_APP_MODE | STATUS_APP_VERIFY

  /** With that mask, either bit alone is enough. */
  lemma BeginStatusEitherBit(status: Byte)
    ensures StatusCheck(status, BEGIN_STATUS_MASK).Ok? <==>
      status & STATUS_APP_MODE != 0 || status & STATUS_APP_VERIFY != 0
  {
  }

  /** A chip in application mode whose verify bit is clear still passes. */
  lemma BeginStatusNotBothBits()
    ensures StatusCheck(STATUS_APP_MODE, BEGIN_STATUS_MASK).Ok?
    ensures STATUS_APP_MODE & BEGIN_STATUS_MASK != BEGIN_STATUS_MASK
  {
  }
}
