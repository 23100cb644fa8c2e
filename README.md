# CCS811 air-quality driver, modelled in Dafny

This project models the CCS811 driver of a Raspberry Pi sensor exporter
(`src/ccs811.rs`). The CCS811 is an I2C gas sensor that reports equivalent
CO2 (eCO2, ppm) and total volatile organic compounds (tVOC, ppb). The driver
brings the chip up (`begin`), selects a sampling mode (`start`), uploads
humidity and temperature for compensation (`set_env_data`), passes the
baseline register through (`get_baseline`/`set_baseline`), and reads and
checks the 8-byte result block (`read`).

The I2C bus is abstract: `I2c.Bus` is a class that appends every operation
it is asked to perform to `trace`, and answers each one with the next reply
of `script` (`Ack(data)` or `Nack(error)`). A script that has run out answers
every further operation with `Nack(NoAcknowledge)`. An absent chip is a script
that acknowledges the address selection (which involves no bus transaction)
and nothing after it. The driver's waits
(`sleep`) are recorded in the same trace as `Sleep(micros)` and consume no
reply. Every driver method is proved to append exactly the operations the
source issues, in order, to consume exactly one reply per bus operation,
and to return a result that is a function of those replies. The byte-level
logic is modelled as functions, with lemmas about them.

Files:

- `results.dfy`: Rust's `Result`, its `and` combinator, and the proof that a
  chain of eagerly evaluated `and` calls returns the first failure.
- `i2c.dfy`: `u8`/`u16` as `bv8`/`bv16`, and the abstract bus.
- `ccs811_registers.dfy`: register map, key sequences, settle times, the
  sampling `Mode` and its MEAS_MODE byte.
- `ccs811_codec.dfy`: the result-block decoder and range checks, the integer
  half of `float_to_bytes`, the ENV_DATA payload, and the HW-ID and status tests.
- `ccs811_driver.dfy`: the driver class `Ccs811` over the bus.
- `ccs811_scenarios.dfy`: driver runs against fixed scripts.

Behaviour of the code worth noting:

- `read` checks eCO2 and tVOC only against upper bounds (a value of 0 is
  accepted). A value above a bound is an error that does not carry the
  decoded sample.
- The status check in `begin` masks the status with the application-mode bit
  and the verify-complete bit together, so either bit alone passes it.
- After the address is set, `begin` does not stop at the first failing step.
  `Result::and` takes its argument already evaluated, so reset, HW-ID check,
  application start and status check all run, and the first error is returned.
- The mode is shifted into bits 4-5 (`<< 4`), giving 0x00, 0x10, 0x20, 0x30.
- The driver keeps no state besides the bus handle, and it never reads the
  error register.

## Model

| member | source | states |
|---|---|---|
| `Results.Result.And` | src/ccs811.rs:159-162 | Rust's `Result::and`: the argument when self is Ok, otherwise self's error; the argument is already evaluated |
| `Results.AndChain` | src/ccs811.rs:159-162 | the left fold `r0.and(r1).and(r2)...` succeeds iff every result in it succeeded |
| `Results.FailureIndex` | src/ccs811.rs:159-162 | the index of the first failed step, or the number of steps; every step before it succeeded, and the step at it failed |
| `Results.FirstFailure` | src/ccs811.rs:159-162 | succeeds iff every step succeeded; otherwise it is some failed step all of whose predecessors succeeded |
| `Results.AndChainIsFirstFailure` | src/ccs811.rs:159-162 | a left-nested chain of `and` over already-evaluated results equals the first failure, for any number of steps |
| `Results.AndChainOfFour` | src/ccs811.rs:159-162 | `a.and(b).and(c).and(d)`, as begin writes it, is the first failure among the four |
| `I2c.Bus.SetSlaveAddress` | src/ccs811.rs:155-157 | records the address operation and consumes one reply; fails iff the reply is a Nack |
| `I2c.Bus.BlockWrite` | src/ccs811.rs:83-85 | records the register write with its payload and consumes one reply; fails iff the reply is a Nack |
| `I2c.Bus.Write` | src/ccs811.rs:93-95 | records the plain write and consumes one reply; fails iff the reply is a Nack |
| `I2c.Bus.BlockRead` | src/ccs811.rs:273-277 | records the read and its length; on an Ack the delivered bytes overwrite the front of the buffer and the rest is unchanged |
| `I2c.Delivered` | src/ccs811.rs:273-277 | the buffer after a read: delivered bytes at the front, the rest as before; unchanged on a Nack |
| `I2c.Bus.SmbusReadByte` | src/ccs811.rs:113-116 | records the byte read and returns the first delivered byte, or the bus error |
| `I2c.Bus.SmbusReadWord` | src/ccs811.rs:225-227 | records the word read and returns the delivered word, low byte first, or the bus error |
| `I2c.Bus.SmbusWriteWord` | src/ccs811.rs:233-235 | records the word write with the value's two wire bytes, low byte first, and consumes one reply |
| `I2c.Bus.Sleep` | src/ccs811.rs:87 | records the wait and consumes no reply |
| `I2c.WordRoundTrip` | src/ccs811.rs:224-236 | the two wire bytes of a word write, delivered to a word read, give back the same word |
| `Ccs811Registers.ModeValue` | src/ccs811.rs:11-16 | the mode enum's discriminant is at most 3 |
| `Ccs811Registers.MeasModeByte` | src/ccs811.rs:187-189 | the MEAS_MODE byte has a zero low nibble, the mode value in the high nibble, and bits 6-7 clear |
| `Ccs811Registers.MeasModeBytes` | src/ccs811.rs:11-16 | Idle, Sec1, Sec10, Sec60 are written as 0x00, 0x10, 0x20, 0x30 |
| `Ccs811Registers.MeasModeByteInjective` | src/ccs811.rs:187-189 | two modes give the same byte iff they are the same mode |
| `Ccs811Codec.U16FromBytes` | src/ccs811.rs:284-285 | the 16-bit `hi * 256 + lo` equals the big-endian value and never exceeds 0xFFFF, so the `u16` arithmetic never wraps |
| `Ccs811Codec.DecodeResult` | src/ccs811.rs:279-296 | a non-zero error byte (index 5) gives that error; otherwise it succeeds iff tVOC <= 1187 and eCO2 <= 8192, with eCO2 and tVOC big-endian from bytes 0-1 and 2-3 and raw equal to the whole block; above a bound the error carries both values |
| `Ccs811Codec.ErrorByteRejects` | src/ccs811.rs:279-281 | a non-zero error byte is rejected, and the result depends on no other byte |
| `Ccs811Codec.ZeroECo2Accepted` | src/ccs811.rs:289-296 | a block with eCO2 = 0, a plausible tVOC and a zero error byte is accepted |
| `Ccs811Codec.AcceptedWithinBounds` | src/ccs811.rs:289-296 | every accepted sample has tVOC <= 1187 and eCO2 <= 8192 |
| `Ccs811Codec.SaturateToU8` | src/ccs811.rs:59 | `base as u8` keeps values 0-255 and saturates below and above |
| `Ccs811Codec.PackBits` | src/ccs811.rs:59-61 | `hi >> 1` is the integer part's low 7 bits, `((hi & 1) << 8) | lo` is the fraction, and for an integer part below 128 the bytes read big-endian are `base * 512 + fraction` |
| `Ccs811Codec.PackEnvValue` | src/ccs811.rs:54-64 | the same for a whole-valued floor cast to `u8` first |
| `Ccs811Codec.UnpackEnvValue` | src/ccs811.rs:50-53 | the inverse reading of two bytes yields an integer part below 128 |
| `Ccs811Codec.PackUnpack` | src/ccs811.rs:59-63 | for an integer part in 0-127 packing then unpacking gives back the integer part and the fraction |
| `Ccs811Codec.UnpackPack` | src/ccs811.rs:59-63 | every byte pair is the packing of the value it unpacks to |
| `Ccs811Codec.PackWrapsIntegerPart` | src/ccs811.rs:59 | integer parts 128-255 are packed as the part minus 128, and parts above 255 as 127 |
| `Ccs811Codec.EnvPayload` | src/ccs811.rs:250 | the payload is four bytes, humidity's two then temperature's two |
| `Ccs811Codec.EnvPayloadRoundTrip` | src/ccs811.rs:250 | both values are recovered from the payload when their integer parts are in 0-127 |
| `Ccs811Codec.HwIdCheck` | src/ccs811.rs:118-120 | passes iff the ID is 0x81; otherwise the error carries the ID read |
| `Ccs811Codec.StatusCheck` | src/ccs811.rs:131-136 | fails iff `status & expected == 0`, with expected and found in the error; a status with all expected bits passes |
| `Ccs811Codec.StatusCheckAnyBit` | src/ccs811.rs:131 | the check passes iff some bit is set in both the status and the expected mask |
| `Ccs811Codec.BeginStatusEitherBit` | src/ccs811.rs:162 | with begin's mask the check passes iff the application-mode bit or the verify bit is set |
| `Ccs811Codec.BeginStatusNotBothBits` | src/ccs811.rs:162 | a status with only the application-mode bit passes begin's check |
| `Ccs811Driver.WriteResult` | src/ccs811.rs:83-85 | a write step succeeds iff the write is acknowledged; a failure is tagged with the step |
| `Ccs811Driver.SettleTrace` | src/ccs811.rs:85-87 | the wait follows only a successful write |
| `Ccs811Driver.HwIdResult` | src/ccs811.rs:112-123 | the HW-ID step succeeds iff the read is acknowledged and yields 0x81; a bus error and a wrong ID are reported apart |
| `Ccs811Driver.StatusResult` | src/ccs811.rs:125-139 | the status step succeeds iff the read is acknowledged and shares a bit with the mask |
| `Ccs811Driver.BeginSteps` | src/ccs811.rs:159-162 | begin chains exactly four step results |
| `Ccs811Driver.BeginIssuesAllSteps` | src/ccs811.rs:159-162 | whatever the chip answers, the bus operations after the address are the reset write of `[0x11,0xE5,0x72,0x8A]` to 0xFF, the HW-ID read, the `[0xF4]` write and the status read, in that order |
| `Ccs811Driver.BeginReportsFirstFailure` | src/ccs811.rs:159-162 | begin's steps succeed iff reset, app start and both reads are acknowledged, the ID is 0x81 and the status has a mask bit; a failed reset is the reported error |
| `Ccs811Driver.ReadResult` | src/ccs811.rs:272-297 | a failed block read is a bus error; an answer of 8 bytes or more decodes as its first 8 bytes, and a shorter one as its bytes padded with the buffer's zeros |
| `Ccs811Driver.FullReadDecodes` | src/ccs811.rs:273-287 | a full 8-byte answer is decoded as it is |
| `Ccs811Driver.Ccs811.constructor` | src/ccs811.rs:78-80 | the driver keeps the bus it is given |
| `Ccs811Driver.Ccs811.Reset` | src/ccs811.rs:82-90 | writes the reset key to SW_RESET, waits 2000 us only on success, and returns the write's outcome |
| `Ccs811Driver.Ccs811.AppStart` | src/ccs811.rs:92-100 | writes `[0xF4]`, waits 1000 us only on success, and returns the write's outcome |
| `Ccs811Driver.Ccs811.EraseApp` | src/ccs811.rs:102-110 | writes the erase key to APP_ERASE, waits 500000 us only on success, and returns the write's outcome |
| `Ccs811Driver.Ccs811.CheckHwId` | src/ccs811.rs:112-123 | one byte read of HW_ID; succeeds iff it is acknowledged and yields 0x81 |
| `Ccs811Driver.Ccs811.CheckStatus` | src/ccs811.rs:125-139 | one byte read of STATUS; succeeds iff it is acknowledged and `status & expected != 0` |
| `Ccs811Driver.Ccs811.Begin` | src/ccs811.rs:154-165 | a failed address setting returns at once after that single operation; otherwise all four steps are issued and the first failing step's error, or Ok, is returned |
| `Ccs811Driver.Ccs811.Start` | src/ccs811.rs:187-193 | writes the single MEAS_MODE byte for the mode to register 0x01 and returns the write's outcome |
| `Ccs811Driver.Ccs811.GetBaseline` | src/ccs811.rs:224-228 | one word read of BASELINE, returned unchanged |
| `Ccs811Driver.Ccs811.SetBaseline` | src/ccs811.rs:232-236 | one word write of the given baseline to BASELINE, unchanged |
| `Ccs811Driver.Ccs811.SetEnvData` | src/ccs811.rs:249-257 | writes the four-byte humidity-then-temperature payload to ENV_DATA and returns the write's outcome |
| `Ccs811Driver.Ccs811.Read` | src/ccs811.rs:272-297 | one 8-byte block read of ALG_RESULT_DATA into a zeroed buffer, and the result is the read's decoding |
| `Ccs811Scenarios.BeginWithWrongHwId` | src/ccs811.rs:154-165 | with ID 0x80 begin fails with that ID, and the app start and status read are still issued |
| `Ccs811Scenarios.BeginAddressRejected` | src/ccs811.rs:155-157 | when the address selection is rejected, begin fails with that error after the single address operation |
| `Ccs811Scenarios.BeginWithoutDevice` | src/ccs811.rs:154-165 | with no chip on the bus the address selection succeeds, begin reports the failed reset, and the HW-ID read, app start and status read are still issued |
| `Ccs811Scenarios.BeginInAppModeOnly` | src/ccs811.rs:162 | a chip in application mode whose verify bit is clear passes begin |
| `Ccs811Scenarios.BaselineRestored` | src/ccs811.rs:224-236 | a chip that returns the bytes `set_baseline` wrote makes `get_baseline` return the same baseline |
| `Ccs811Scenarios.ReadSample` | src/ccs811.rs:283-287 | the block `01 90 00 19 98 00 00 00` reads as 400 ppm eCO2 and 25 ppb tVOC, with the block as raw |

## Left out

- The floating-point half of `float_to_bytes` (`floor`, `* 512.0 - 1.0` and the
  saturating cast to `u16`): floating point. The model takes the floor and the
  9-bit fraction left after `min(.., 511)` as inputs. The `- 1.0` offset, which
  lowers every fraction by one 1/512 step, lives in that half and is not modelled.
- `Ccs811Codec.SaturateToU8`: NaN and infinite inputs of the float cast are not represented, since the floor is an integer.
- `hardware_version`, `bootloader_version`, `application_version`: plain reads
  with no logic of their own.
- The timing of the waits: a wait is recorded in the trace with its length in
  microseconds, and real time is not modelled.
- Error messages: the formatted strings become the `Error` datatype, which
  keeps the failing step and the values the message would show.
- The `rppal` bus: it is reduced to the operations the driver issues and
  their replies. SMBus word order (low byte first) is assumed for the
  baseline word read and write. Selecting the slave address is modelled as an
  operation with a reply of its own; on Linux it is a local ioctl with no bus
  transaction, so a rejection stands for an invalid or busy address.
- `src/bmp280.rs` and `src/tmp102.rs`: stubs with no decoding logic.
  `src/main.rs`: bus opening, the metrics exporter and the polling loop.
- The GPIO wake pin that the comment on `begin` mentions: the code never drives it.
- Concurrency: the driver owns its bus handle and does nothing concurrently.
