/** Fixed-width unsigned integers as Rust has them. */
module Bytes {

  /** Rust's `u8`. */
  type Byte = bv8

  /** Rust's `u16`. */
  type Word = bv16

  /** Converting a value in range to a byte keeps it. */
  lemma ByteOfInt(x: int)
    requires 0 <= x < 256
    ensures (x as Byte) as int == x
  {
  }

  /** Converting a byte to an integer and back gives the byte. */
  lemma IntOfByte(b: Byte)
    ensures (b as int) as Byte == b
  {
  }
}

/** An abstract I2C bus standing in for the `rppal` handle the driver owns.
    The bus records every operation it is asked to perform, in order, and
    answers each one with the next reply of a script. */
module I2c {
  import opened Bytes
  import opened Results

  /** Why a bus exchange failed. */
  datatype BusError = NoAcknowledge | IoError(code: int)

  /** The device's answer to one bus operation. `data` is what a read
      delivers; a write ignores it. */
  datatype Reply = Ack(data: seq<Byte>) | Nack(error: BusError)

  /** What the trace records: the bus operations, plus the waits the driver
      performs between them. */
  datatype Event =
    | SetSlaveAddress(address: nat)
    | BlockWrite(command: Byte, data: seq<Byte>)
    | Write(data: seq<Byte>)
    | BlockRead(command: Byte, length: nat)
    | SmbusReadByte(command: Byte)
    | SmbusReadWord(command: Byte)
    | SmbusWriteWord(command: Byte, data: seq<Byte>)
    | Sleep(micros: nat)

  /** The `i`-th reply of a script. A script that has run out answers every
      further operation with `NoAcknowledge`. */
  function Nth(script: seq<Reply>, i: nat): (r: Reply)
  {
    if i < |script| then script[i] else Nack(NoAcknowledge)
  }

  /** The script left after `n` operations. */
  function Drop(script: seq<Reply>, n: nat): (rest: seq<Reply>)
    ensures |rest| == if n <= |script| then |script| - n else 0
  {
    if n <= |script| then script[n..] else []
  }

  /** The replies after `n` operations are the original ones, shifted. */
  lemma NthDrop(script: seq<Reply>, n: nat, i: nat)
    ensures Nth(Drop(script, n), i) == Nth(script, n + i)
  {
  }

  lemma DropDrop(script: seq<Reply>, n: nat, m: nat)
    ensures Drop(Drop(script, n), m) == Drop(script, n + m)
  {
  }

  /** The bus operations of a trace, waits left out. */
  function BusOps(trace: seq<Event>): (ops: seq<Event>)
    ensures forall e :: e in ops ==> !e.Sleep?
    ensures |ops| <= |trace|
  {
    if trace == [] then []
    else if trace[0].Sleep? then BusOps(trace[1..])
    else [trace[0]] + BusOps(trace[1..])
  }

  lemma {:induction false} BusOpsAppend(a: seq<Event>, b: seq<Event>)
    ensures BusOps(a + b) == BusOps(a) + BusOps(b)
  {
    if a != [] {
      assert (a + b)[0] == a[0] && (a + b)[1..] == a[1..] + b;
      BusOpsAppend(a[1..], b);
    } else {
      assert a + b == b;
    }
  }

  /** Four pieces appended one after the other to a trace. */
  lemma AppendFour(t: seq<Event>, a: seq<Event>, b: seq<Event>, c: seq<Event>, d: seq<Event>)
    ensures t + a + b + c + d == t + (a + b + c + d)
  {
  }

  /** Whether the device acknowledged the operation. */
  function Acknowledged(reply: Reply): (r: Outcome<BusError>)
    ensures r.Ok? <==> reply.Ack?
    ensures r.Err? ==> r.error == reply.error
  {
    match reply
    case Ack(_) => Ok(())
    case Nack(e) => Err(e)
  }

  /** `buffer` after a read answered by `reply`: the delivered bytes land at
      the front, and a short answer leaves the rest of the buffer as it was. */
  function Delivered(buffer: seq<Byte>, reply: Reply): (r: seq<Byte>)
    ensures |r| == |buffer|
    ensures reply.Nack? ==> r == buffer
    ensures reply.Ack? ==> forall i :: 0 <= i < |buffer| ==>
      r[i] == if i < |reply.data| then reply.data[i] else buffer[i]
  {
    match reply
    case Nack(_) => buffer
    case Ack(d) => seq(|buffer|, i requires 0 <= i < |buffer| => if i < |d| then d[i] else buffer[i])
  }

  /** `n` zero bytes. */
  function Zeros(n: nat): (r: seq<Byte>)
    ensures |r| == n && forall i :: 0 <= i < n ==> r[i] == 0
  {
    seq(n, _ => 0)
  }

  /** The byte an SMBus "read byte" returns. */
  function ReplyByte(reply: Reply): (r: Result<Byte, BusError>)
    ensures r.Ok? <==> reply.Ack?
    ensures r.Err? ==> r.error == reply.error
    ensures r.Ok? ==> r.value == Delivered(Zeros(1), reply)[0]
  {
    match reply
    case Nack(e) => Err(e)
    case Ack(d) => Ok(if |d| > 0 then d[0] else 0)
  }

  /** An SMBus word goes over the wire low byte first. */
  function WordFromBytes(low: Byte, high: Byte): (w: Word)
  {
    low as Word | (high as Word << 8)
  }

  /** The two bytes, low first, that carry `w` on the wire. */
  function WordToBytes(w: Word): (r: seq<Byte>)
    ensures |r| == 2 && WordFromBytes(r[0], r[1]) == w
  {
    [(w & 0xFF) as Byte, (w >> 8) as Byte]
  }

  /** The word an SMBus "read word" returns. */
  function ReplyWord(reply: Reply): (r: Result<Word, BusError>)
    ensures r.Ok? <==> reply.Ack?
    ensures r.Err? ==> r.error == reply.error
    ensures reply.Ack? && |reply.data| >= 2 ==> r.value == WordFromBytes(reply.data[0], reply.data[1])
  {
    match reply
    case Nack(e) => Err(e)
    case Ack(d) =>
      var b := Delivered(Zeros(2), reply);
      Ok(WordFromBytes(b[0], b[1]))
  }

  lemma WordRoundTrip(w: Word)
    ensures ReplyWord(Ack(WordToBytes(w))) == Ok(w)
  {
  }

  class Bus {
    /** Every operation issued so far, oldest first. */
    var trace: seq<Event>
    /** The replies still to come. */
    var script: seq<Reply>

    constructor (replies: seq<Reply>)
      ensures trace == [] && script == replies
    {
      trace := [];
      script := replies;
    }

    /** Records `e` and consumes the next reply. */
    method Exchange(e: Event) returns (reply: Reply)
      modifies this
      ensures trace == old(trace) + [e]
      ensures script == Drop(old(script), 1)
      ensures reply == Nth(old(script), 0)
    {
      trace := trace + [e];
      reply := Nth(script, 0);
      script := Drop(script, 1);
    }

    method SetSlaveAddress(address: nat) returns (r: Outcome<BusError>)
      modifies this
      ensures trace == old(trace) + [Event.SetSlaveAddress(address)]
      ensures script == Drop(old(script), 1)
      ensures r == Acknowledged(Nth(old(script), 0))
    {
      var reply := Exchange(Event.SetSlaveAddress(address));
      r := Acknowledged(reply);
    }

    /** Writes `data` to the register `command`. */
    method BlockWrite(command: Byte, data: seq<Byte>) returns (r: Outcome<BusError>)
      modifies this
      ensures trace == old(trace) + [Event.BlockWrite(command, data)]
      ensures script == Drop(old(script), 1)
      ensures r == Acknowledged(Nth(old(script), 0))
    {
      var reply := Exchange(Event.BlockWrite(command, data));
      r := Acknowledged(reply);
    }

    /** Writes `data` with no register prefix. */
    method Write(data: seq<Byte>) returns (r: Outcome<BusError>)
      modifies this
      ensures trace == old(trace) + [Event.Write(data)]
      ensures script == Drop(old(script), 1)
      ensures r == Acknowledged(Nth(old(script), 0))
    {
      var reply := Exchange(Event.Write(data));
      r := Acknowledged(reply);
    }

    /** Reads from the register `command` into `buffer`. */
    method BlockRead(command: Byte, buffer: array<Byte>) returns (r: Outcome<BusError>)
      modifies this, buffer
      ensures trace == old(trace) + [Event.BlockRead(command, buffer.Length)]
      ensures script == Drop(old(script), 1)
      ensures r == Acknowledged(Nth(old(script), 0))
      ensures buffer[..] == Delivered(old(buffer[..]), Nth(old(script), 0))
    {
      var reply := Exchange(Event.BlockRead(command, buffer.Length));
      r := Acknowledged(reply);
      if reply.Ack? {
        var d := reply.data;
        forall i | 0 <= i < buffer.Length && i < |d| {
          buffer[i] := d[i];
        }
      }
    }

    method SmbusReadByte(command: Byte) returns (r: Result<Byte, BusError>)
      modifies this
      ensures trace == old(trace) + [Event.SmbusReadByte(command)]
      ensures script == Drop(old(script), 1)
      ensures r == ReplyByte(Nth(old(script), 0))
    {
      var reply := Exchange(Event.SmbusReadByte(command));
      r := ReplyByte(reply);
    }

    method SmbusReadWord(command: Byte) returns (r: Result<Word, BusError>)
      modifies this
      ensures trace == old(trace) + [Event.SmbusReadWord(command)]
      ensures script == Drop(old(script), 1)
      ensures r == ReplyWord(Nth(old(script), 0))
    {
      var reply := Exchange(Event.SmbusReadWord(command));
      r := ReplyWord(reply);
    }

    method SmbusWriteWord(command: Byte, value: Word) returns (r: Outcome<BusError>)
      modifies this
      ensures trace == old(trace) + [Event.SmbusWriteWord(command, WordToBytes(value))]
      ensures script == Drop(old(script), 1)
      ensures r == Acknowledged(Nth(old(script), 0))
    {
      var reply := Exchange(Event.SmbusWriteWord(command, WordToBytes(value)));
      r := Acknowledged(reply);
    }

    /** A wait of `micros` microseconds. It is no bus operation and consumes
        no reply; the trace only records that it happened. */
    method Sleep(micros: nat)
      modifies this
      ensures trace == old(trace) + [Event.Sleep(micros)]
      ensures script == old(script)
    {
      trace := trace + [Event.Sleep(micros)];
    }
  }
}
