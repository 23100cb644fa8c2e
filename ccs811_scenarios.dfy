/** Driver runs against scripted buses, as a caller of the driver sees
    them. */
module Ccs811Scenarios {
  import opened Bytes
  import opened Results
  import opened I2c
  import opened Ccs811Registers
  import opened Ccs811Codec
  import opened Ccs811Driver

  /** A chip that reports a wrong hardware ID: `begin` fails with that ID,
      yet the application start and the status read are still issued. */
  method BeginWithWrongHwId() returns (r: Outcome<Error>, ops: seq<Event>)
    ensures r == Err(UnexpectedHwId(0x80))
    ensures ops == [SetSlaveAddress(SLAVEADDR_0), BlockWrite(SW_RESET, RESET_KEY),
                    SmbusReadByte(HW_ID), Write([APP_START]), SmbusReadByte(STATUS)]
  {
    var bus := new Bus([Ack([]), Ack([]), Ack([0x80]), Ack([]), Ack([STATUS_APP_MODE])]);
    var chip := new Ccs811(bus);
    r := chip.Begin();
    ghost var s := [Ack([]), Ack([]), Ack([0x80]), Ack([]), Ack([STATUS_APP_MODE])];
    assert FailureIndex(BeginSteps(s)) == 1;
    BeginIssuesAllSteps(s);
    ops := BusOps(bus.trace);
    assert bus.trace == [SetSlaveAddress(SLAVEADDR_0)] + BeginStepsTrace(s);
    BusOpsAppend([SetSlaveAddress(SLAVEADDR_0)], BeginStepsTrace(s));
  }

  /** The bus rejects the chip's address (an invalid or busy address):
      `begin` gives up after that one operation. */
  method BeginAddressRejected() returns (r: Outcome<Error>, trace: seq<Event>)
    ensures r == Err(BusFailure(SlaveAddress, NoAcknowledge))
    ensures trace == [SetSlaveAddress(SLAVEADDR_0)]
  {
    var bus := new Bus([]);
    var chip := new Ccs811(bus);
    r := chip.Begin();
    trace := bus.trace;
  }

  /** No chip on the bus: selecting the address involves no bus transaction
      and succeeds, and every later operation goes unacknowledged. `begin`
      reports the failed reset, yet still issues the other three steps. */
  method BeginWithoutDevice() returns (r: Outcome<Error>, ops: seq<Event>)
    ensures r == Err(BusFailure(Step.Reset, NoAcknowledge))
    ensures ops == [SetSlaveAddress(SLAVEADDR_0), BlockWrite(SW_RESET, RESET_KEY),
                    SmbusReadByte(HW_ID), Write([APP_START]), SmbusReadByte(STATUS)]
  {
    var bus := new Bus([Ack([])]);
    var chip := new Ccs811(bus);
    r := chip.Begin();
    ghost var s := [Ack([])];
    assert FailureIndex(BeginSteps(s)) == 0;
    BeginIssuesAllSteps(s);
    ops := BusOps(bus.trace);
    BusOpsAppend([SetSlaveAddress(SLAVEADDR_0)], BeginStepsTrace(s));
  }

  /** A chip in application mode with its verify bit clear is accepted. */
  method BeginInAppModeOnly() returns (r: Outcome<Error>)
    ensures r == Ok(())
  {
    var bus := new Bus([Ack([]), Ack([]), Ack([HW_ID_EXPECTED]), Ack([]), Ack([STATUS_APP_MODE])]);
    var chip := new Ccs811(bus);
    r := chip.Begin();
    ghost var s := [Ack([]), Ack([]), Ack([HW_ID_EXPECTED]), Ack([]), Ack([STATUS_APP_MODE])];
    assert FailureIndex(BeginSteps(s)) == 4;
  }

  /** A result block of 400 ppm eCO2 and 25 ppb tVOC. */
  method ReadSample() returns (r: Result<Ccs811Data, Error>)
    ensures r.Ok? && r.value.eCo2 == 400 && r.value.tVoc == 25
    ensures r.value.raw == [0x01, 0x90, 0x00, 0x19, 0x98, 0x00, 0x00, 0x00]
  {
    var block: seq<Byte> := [0x01, 0x90, 0x00, 0x19, 0x98, 0x00, 0x00, 0x00];
    var bus := new Bus([Ack(block)]);
    var chip := new Ccs811(bus);
    r := chip.Read();
    FullReadDecodes(block);
  }

  /** A chip that keeps the baseline it is given: the bytes `set_baseline`
      puts on the wire, read back by `get_baseline`, are the same word. */
  method BaselineRestored(baseline: Word) returns (written: Outcome<Error>, r: Result<Word, Error>)
    ensures written == Ok(())
    ensures r == Ok(baseline)
  {
    var bus := new Bus([Ack([]), Ack(WordToBytes(baseline))]);
    var chip := new Ccs811(bus);
    written := chip.SetBaseline(baseline);
    r := chip.GetBaseline();
    WordRoundTrip(baseline);
  }
}
