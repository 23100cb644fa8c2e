/** The CCS811 driver: each operation is a fixed sequence of bus exchanges
    on the bus handle the driver owns. */
module Ccs811Driver {
  import opened Bytes
  import opened Results
  import opened I2c
  import opened Ccs811Registers
  import opened Ccs811Codec

  /** What a write step returns for the reply it got; a failure is tagged
      with the step. */
  function WriteResult(step: Step, reply: Reply): (r: Outcome<Error>)
    ensures r.Ok? <==> reply.Ack?
    ensures r.Err? ==> r.error == BusFailure(step, reply.error)
  {
    match reply
    case Ack(_) => Ok(())
    case Nack(e) => Err(BusFailure(step, e))
  }

  /** The wait that follows a write, issued only when the write succeeded. */
  function SettleTrace(reply: Reply, micros: nat): (t: seq<Event>)
    ensures reply.Ack? ==> t == [Sleep(micros)]
    ensures reply.Nack? ==> t == []
  {
    if reply.Ack? then [Sleep(micros)] else []
  }

  /** What `check_hw_id` returns for the reply to its read. */
  function HwIdResult(reply: Reply): (r: Outcome<Error>)
    ensures r.Ok? <==> reply.Ack? && ReplyByte(reply).value == HW_ID_EXPECTED
    ensures reply.Nack? ==> r == Err(BusFailure(ReadHwId, reply.error))
    ensures reply.Ack? && r.Err? ==> r == Err(UnexpectedHwId(ReplyByte(reply).value))
  {
    match ReplyByte(reply)
    case Err(e) => Err(BusFailure(ReadHwId, e))
    case Ok(id) => HwIdCheck(id)
  }

  /** What `check_status(expected)` returns for the reply to its read. */
  function StatusResult(reply: Reply, expected: Byte): (r: Outcome<Error>)
    ensures r.Ok? <==> reply.Ack? && ReplyByte(reply).value & expected != 0
    ensures reply.Nack? ==> r == Err(BusFailure(ReadStatus, reply.error))
    ensures reply.Ack? && r.Err? ==> r == Err(StatusMismatch(expected, ReplyByte(reply).value))
  {
    match ReplyByte(reply)
    case Err(e) => Err(BusFailure(ReadStatus, e))
    case Ok(status) => StatusCheck(status, expected)
  }

  /** The results of the four steps `begin` chains, for the replies that
      follow the one to the address. */
  function BeginSteps(script: seq<Reply>): (rs: seq<Outcome<Error>>)
    ensures |rs| == 4
  {
    [ WriteResult(Step.Reset, Nth(script, 1)),
      HwIdResult(Nth(script, 2)),
      WriteResult(Step.AppStart, Nth(script, 3)),
      StatusResult(Nth(script, 4), BEGIN_STATUS_MASK) ]
  }

  /** The events of those four steps. */
  function BeginStepsTrace(script: seq<Reply>): (t: seq<Event>)
  {
    ResetTrace(Nth(script, 1)) + [SmbusReadByte(HW_ID)] + AppStartTrace(Nth(script, 3)) + [SmbusReadByte(STATUS)]
  }

  /** The events of a reset answered by `reply`. */
  function ResetTrace(reply: Reply): (t: seq<Event>)
  {
    [BlockWrite(SW_RESET, RESET_KEY)] + SettleTrace(reply, WAIT_AFTER_RESET_US)
  }

  /** The events of an application start answered by `reply`. */
  function AppStartTrace(reply: Reply): (t: seq<Event>)
  {
    [Write([APP_START])] + SettleTrace(reply, WAIT_AFTER_APPSTART_US)
  }

  /** Whatever the chip answers, the four steps put the same bus operations
      on the wire, in the same order. */
  lemma BeginIssuesAllSteps(script: seq<Reply>)
    ensures BusOps(BeginStepsTrace(script)) ==
      [BlockWrite(SW_RESET, RESET_KEY), SmbusReadByte(HW_ID), Write([APP_START]), SmbusReadByte(STATUS)]
  {
    var s1 := SettleTrace(Nth(script, 1), WAIT_AFTER_RESET_US);
    var s3 := SettleTrace(Nth(script, 3), WAIT_AFTER_APPSTART_US);
    assert BusOps(s1) == [] && BusOps(s3) == [];
    var r := ResetTrace(Nth(script, 1));
    var a := AppStartTrace(Nth(script, 3));
    BusOpsAppend([BlockWrite(SW_RESET, RESET_KEY)], s1);
    BusOpsAppend([Write([APP_START])], s3);
    BusOpsAppend(r, [SmbusReadByte(HW_ID)]);
    BusOpsAppend(r + [SmbusReadByte(HW_ID)], a);
    BusOpsAppend(r + [SmbusReadByte(HW_ID)] + a, [SmbusReadByte(STATUS)]);
  }

  /** `begin` reports the first failing step; it succeeds only when all
      four succeed. A failed reset is reported even though the remaining
      steps still ran. */
  lemma BeginReportsFirstFailure(script: seq<Reply>)
    ensures FirstFailure(BeginSteps(script)).Ok? <==>
      && Nth(script, 1).Ack?
      && Nth(script, 2).Ack? && ReplyByte(Nth(script, 2)).value == HW_ID_EXPECTED
      && Nth(script, 3).Ack?
      && Nth(script, 4).Ack? && ReplyByte(Nth(script, 4)).value & BEGIN_STATUS_MASK != 0
    ensures Nth(script, 1).Nack? ==>
      FirstFailure(BeginSteps(script)) == Err(BusFailure(Step.Reset, Nth(script, 1).error))
  {
    var rs := BeginSteps(script);
    assert (forall j :: 0 <= j < |rs| ==> rs[j].Ok?) <==> rs[0].Ok? && rs[1].Ok? && rs[2].Ok? && rs[3].Ok?;
    if Nth(script, 1).Nack? {
      assert FailureIndex(rs) == 0;
    }
  }

  /** What `read` returns for the reply to its block read: the decoding of
      the first eight delivered bytes, padded with the buffer's zeros when
      the chip delivers fewer. */
  function ReadResult(reply: Reply): (r: Result<Ccs811Data, Error>)
    ensures reply.Nack? ==> r == Err(BusFailure(ReadData, reply.error))
    ensures reply.Ack? && |reply.data| >= 8 ==> r == DecodeResult(reply.data[..8])
    ensures reply.Ack? && |reply.data| < 8 ==> r == DecodeResult(reply.data + Zeros(8 - |reply.data|))
  {
    match reply
    case Nack(e) => Err(BusFailure(ReadData, e))
    case Ack(d) =>
      var b := Delivered(Zeros(8), reply);
      assert |d| >= 8 ==> b == d[..8];
      assert |d| < 8 ==> b == d + Zeros(8 - |d|);
      DecodeResult(b)
  }

  /** A block read the chip answers in full returns exactly the decoded
      block. */
  lemma FullReadDecodes(block: seq<Byte>)
    requires |block| == 8
    ensures ReadResult(Ack(block)) == DecodeResult(block)
  {
    assert block[..8] == block;
  }

  class Ccs811 {
    /** The bus handle, fixed for the driver's lifetime. */
    const i2c: Bus

    constructor (i2c: Bus)
      ensures this.i2c == i2c
    {
      this.i2c := i2c;
    }

    /** Software reset: writes the reset key, then waits `WAIT_AFTER_RESET_US`. */
    method Reset() returns (r: Outcome<Error>)
      modifies i2c
      ensures var reply := Nth(old(i2c.script), 0);
        && r == WriteResult(Step.Reset, reply)
        && i2c.trace == old(i2c.trace) + ResetTrace(reply)
        && i2c.script == Drop(old(i2c.script), 1)
    {
      var w := i2c.BlockWrite(SW_RESET, RESET_KEY);
      if w.Err? {
        return Err(BusFailure(Step.Reset, w.error));
      }
      i2c.Sleep(WAIT_AFTER_RESET_US);
      return Ok(());
    }

    /** Starts the application firmware, then waits `WAIT_AFTER_APPSTART_US`. */
    method AppStart() returns (r: Outcome<Error>)
      modifies i2c
      ensures var reply := Nth(old(i2c.script), 0);
        && r == WriteResult(Step.AppStart, reply)
        && i2c.trace == old(i2c.trace) + AppStartTrace(reply)
        && i2c.script == Drop(old(i2c.script), 1)
    {
      var w := i2c.Write([APP_START]);
      if w.Err? {
        return Err(BusFailure(Step.AppStart, w.error));
      }
      i2c.Sleep(WAIT_AFTER_APPSTART_US);
      return Ok(());
    }

    /** Erases the application firmware, then waits `WAIT_AFTER_APPERASE_US`. */
    method EraseApp() returns (r: Outcome<Error>)
      modifies i2c
      ensures var reply := Nth(old(i2c.script), 0);
        && r == WriteResult(Step.EraseApp, reply)
        && i2c.trace == old(i2c.trace) + [BlockWrite(APP_ERASE, ERASE_KEY)] + SettleTrace(reply, WAIT_AFTER_APPERASE_US)
        && i2c.script == Drop(old(i2c.script), 1)
    {
      var w := i2c.BlockWrite(APP_ERASE, ERASE_KEY);
      if w.Err? {
        return Err(BusFailure(Step.EraseApp, w.error));
      }
      i2c.Sleep(WAIT_AFTER_APPERASE_US);
      return Ok(());
    }

    /** Reads HW_ID and succeeds exactly when it holds `HW_ID_EXPECTED`. */
    method CheckHwId() returns (r: Outcome<Error>)
      modifies i2c
      ensures r == HwIdResult(Nth(old(i2c.script), 0))
      ensures i2c.trace == old(i2c.trace) + [SmbusReadByte(HW_ID)]
      ensures i2c.script == Drop(old(i2c.script), 1)
    {
      var id := i2c.SmbusReadByte(HW_ID);
      if id.Err? {
        return Err(BusFailure(ReadHwId, id.error));
      }
      if id.value != HW_ID_EXPECTED {
        return Err(UnexpectedHwId(id.value));
      }
      return Ok(());
    }

    /** Reads STATUS and succeeds when it shares a bit with `expected`. */
    method CheckStatus(expected: Byte) returns (r: Outcome<Error>)
      modifies i2c
      ensures r == StatusResult(Nth(old(i2c.script), 0), expected)
      ensures i2c.trace == old(i2c.trace) + [SmbusReadByte(STATUS)]
      ensures i2c.script == Drop(old(i2c.script), 1)
    {
      var status := i2c.SmbusReadByte(STATUS);
      if status.Err? {
        return Err(BusFailure(ReadStatus, status.error));
      }
      if status.value & expected == 0 {
        return Err(StatusMismatch(expected, status.value));
      }
      return Ok(());
    }

    /** Initialisation. A failure to set the address stops it at once;
        after that all four steps run, whatever each returns, and the
        first failure among them is the result. */
    method Begin() returns (r: Outcome<Error>)
      modifies i2c
      ensures var s := old(i2c.script);
        if Nth(s, 0).Nack? then
          && r == Err(BusFailure(SlaveAddress, Nth(s, 0).error))
          && i2c.trace == old(i2c.trace) + [SetSlaveAddress(SLAVEADDR_0)]
          && i2c.script == Drop(s, 1)
        else
          && r == FirstFailure(BeginSteps(s))
          && i2c.trace == old(i2c.trace) + [SetSlaveAddress(SLAVEADDR_0)] + BeginStepsTrace(s)
          && i2c.script == Drop(s, 5)
    {
      ghost var s := i2c.script;
      var a := i2c.SetSlaveAddress(SLAVEADDR_0);
      if a.Err? {
        return Err(BusFailure(SlaveAddress, a.error));
      }
      ghost var t0 := i2c.trace;
      var reset := Reset();
      NthDrop(s, 1, 0);
      DropDrop(s, 1, 1);
      var hwId := CheckHwId();
      NthDrop(s, 2, 0);
      DropDrop(s, 2, 1);
      var appStart := AppStart();
      NthDrop(s, 3, 0);
      DropDrop(s, 3, 1);
      var status := CheckStatus(STATUS_APP_MODE | STATUS_APP_VERIFY);
      NthDrop(s, 4, 0);
      DropDrop(s, 4, 1);
      r := reset.And(hwId).And(appStart).And(status);
      AndChainOfFour(reset, hwId, appStart, status);
      assert [reset, hwId, appStart, status] == BeginSteps(s);
      AppendFour(t0, ResetTrace(Nth(s, 1)), [SmbusReadByte(HW_ID)], AppStartTrace(Nth(s, 3)), [SmbusReadByte(STATUS)]);
    }

    /** Selects the sampling mode: one byte, the mode in the high nibble. */
    method Start(mode: Mode) returns (r: Outcome<Error>)
      modifies i2c
      ensures r == WriteResult(SetMode, Nth(old(i2c.script), 0))
      ensures i2c.trace == old(i2c.trace) + [BlockWrite(MEAS_MODE, [MeasModeByte(mode)])]
      ensures i2c.script == Drop(old(i2c.script), 1)
    {
      var w := i2c.BlockWrite(MEAS_MODE, [MeasModeByte(mode)]);
      if w.Err? {
        return Err(BusFailure(SetMode, w.error));
      }
      return Ok(());
    }

    /** The baseline register as the bus reads it, unchanged. */
    method GetBaseline() returns (r: Result<Word, Error>)
      modifies i2c
      ensures var reply := Nth(old(i2c.script), 0);
        && (reply.Nack? ==> r == Err(BusFailure(ReadBaseline, reply.error)))
        && (reply.Ack? ==> r == Ok(ReplyWord(reply).value))
      ensures i2c.trace == old(i2c.trace) + [SmbusReadWord(BASELINE)]
      ensures i2c.script == Drop(old(i2c.script), 1)
    {
      var w := i2c.SmbusReadWord(BASELINE);
      match w
      case Err(e) => r := Err(BusFailure(ReadBaseline, e));
      case Ok(v) => r := Ok(v);
    }

    /** Writes `baseline` to the baseline register, unchanged. */
    method SetBaseline(baseline: Word) returns (r: Outcome<Error>)
      modifies i2c
      ensures r == WriteResult(Step.SetBaseline, Nth(old(i2c.script), 0))
      ensures i2c.trace == old(i2c.trace) + [SmbusWriteWord(BASELINE, WordToBytes(baseline))]
      ensures i2c.script == Drop(old(i2c.script), 1)
    {
      var w := i2c.SmbusWriteWord(BASELINE, baseline);
      match w
      case Err(e) => r := Err(BusFailure(Step.SetBaseline, e));
      case Ok(_) => r := Ok(());
    }

    /** Uploads humidity and temperature in one four-byte write. */
    method SetEnvData(humidity: EnvValue, temperature: EnvValue) returns (r: Outcome<Error>)
      modifies i2c
      ensures r == WriteResult(WriteEnvData, Nth(old(i2c.script), 0))
      ensures i2c.trace == old(i2c.trace) + [BlockWrite(ENV_DATA, EnvPayload(humidity, temperature))]
      ensures i2c.script == Drop(old(i2c.script), 1)
    {
      var w := i2c.BlockWrite(ENV_DATA, EnvPayload(humidity, temperature));
      if w.Err? {
        return Err(BusFailure(WriteEnvData, w.error));
      }
      return Ok(());
    }

    /** Reads the 8-byte result block into a zeroed buffer and decodes it. */
    method Read() returns (r: Result<Ccs811Data, Error>)
      modifies i2c
      ensures r == ReadResult(Nth(old(i2c.script), 0))
      ensures i2c.trace == old(i2c.trace) + [BlockRead(ALG_RESULT_DATA, 8)]
      ensures i2c.script == Drop(old(i2c.script), 1)
    {
      var buffer := new Byte[8](_ => 0);
      assert buffer[..] == Zeros(8);
      var io := i2c.BlockRead(ALG_RESULT_DATA, buffer);
      if io.Err? {
        return Err(BusFailure(ReadData, io.error));
      }
      r := DecodeResult(buffer[..]);
    }
  }
}
