/** The parser object with its fixed buffers, proved against the transitions of module Parsing:
    whatever the bytes, no access leaves a buffer (examples/serial_ota/parser.hpp). */
module FrameParsing {
  import opened Crc
  import opened Frames
  import opened Parsing

  class FrameParser {
    const table: array<Bits>
    const payloadBuf: array<Byte>
    const frameData: array<Byte>
    var phase: Phase
    var expected: int
    var payloadIndex: int
    var frameClass: Byte
    var frameCmd: Byte
    var frameLength: int
    var frameCrc: int
    var stats: Stats
    var delivered: seq<Message>

    /** How far the payload has come in each phase. */
    ghost predicate InStep()
      reads this
    {
      match phase
      case Idle => true
      case LenLo => payloadIndex == 0
      case LenHi => payloadIndex == 0 && 0 <= expected < 256
      case CmdClass => payloadIndex == 0 && 2 <= expected <= MAX_DATA + 2
      case Cmd => payloadIndex == 1 && 2 <= expected <= MAX_DATA + 2
      case Data => 2 <= payloadIndex < expected <= MAX_DATA + 2
      case CrcLo => 2 <= payloadIndex == expected <= MAX_DATA + 2
      case CrcHi => 2 <= payloadIndex == expected <= MAX_DATA + 2
      case Tail => 2 <= payloadIndex == expected <= MAX_DATA + 2
    }

    /** The frame under construction repeats the payload buffer. */
    ghost predicate FrameOk()
      reads this, payloadBuf, frameData
      requires payloadBuf.Length == MAX_DATA + 2 && frameData.Length == MAX_DATA
      requires 0 <= payloadIndex <= MAX_DATA + 2
    {
      && (!phase.Idle? && payloadIndex >= 1 ==> frameClass == payloadBuf[0])
      && (!phase.Idle? && payloadIndex >= 2 ==>
            && frameCmd == payloadBuf[1]
            && frameLength == expected - 2
            && forall k :: 2 <= k < payloadIndex ==> frameData[k - 2] == payloadBuf[k])
    }

    ghost predicate Valid()
      reads this, table, payloadBuf, frameData
    {
      && IsTable(table[..])
      && payloadBuf.Length == MAX_DATA + 2 && frameData.Length == MAX_DATA
      && payloadBuf != frameData
      && 0 <= payloadIndex <= MAX_DATA + 2
      && InStep() && FrameOk()
    }

    /** The parser's state as a value. */
    ghost function View(): State
      reads this, payloadBuf
      requires 0 <= payloadIndex <= payloadBuf.Length
    {
      State(phase, expected, payloadBuf[..payloadIndex], frameCrc, stats, delivered)
    }

    constructor (crcTable: array<Bits>)
      requires IsTable(crcTable[..])
      ensures Valid() && table == crcTable && fresh(payloadBuf) && fresh(frameData)
      ensures View() == State(Idle, 0, [], 0, Stats(0, 0, 0, 0, 0, 0), [])
    {
      table := crcTable;
      payloadBuf := new Byte[MAX_DATA + 2];
      frameData := new Byte[MAX_DATA];
      phase, expected, payloadIndex := Idle, 0, 0;
      frameClass, frameCmd, frameLength, frameCrc := 0, 0, 0, 0;
      stats := Stats(0, 0, 0, 0, 0, 0);
      delivered := [];
    }

    method HandleIdle(b: Byte)
      requires Valid() && phase == Idle
      modifies this
      ensures Valid() && View() == Handle(old(View()), b)
    {
      if b == HEADER {
        frameClass, frameCmd, frameLength, frameCrc := 0, 0, 0, 0;
        expected, payloadIndex := 0, 0;
        phase := LenLo;
      } else {
        stats := stats.(syncErrors := stats.syncErrors + 1);
      }
    }

    method HandleLength(b: Byte)
      requires Valid() && (phase == LenLo || phase == LenHi)
      modifies this
      ensures Valid() && View() == Handle(old(View()), b)
    {
      if phase == LenLo {
        expected := b;
        phase := LenHi;
      } else {
        expected := expected + 256 * b;
        if expected < 2 || expected - 2 > MAX_DATA {
          stats := stats.(lengthErrors := stats.lengthErrors + 1);
          phase := Idle;
        } else {
          phase := CmdClass;
        }
      }
    }

    /** Store the byte at the payload index. */
    method Push(b: Byte)
      requires 0 <= payloadIndex < payloadBuf.Length
      modifies this`payloadIndex, payloadBuf
      ensures payloadIndex == old(payloadIndex) + 1
      ensures payloadBuf[..payloadIndex] == old(payloadBuf[..payloadIndex]) + [b]
    {
      payloadBuf[payloadIndex] := b;
      payloadIndex := payloadIndex + 1;
    }

    method HandleCommand(b: Byte)
      requires Valid() && (phase == CmdClass || phase == Cmd)
      modifies this, payloadBuf
      ensures Valid() && View() == Handle(old(View()), b)
    {
      Push(b);
      assert payloadBuf[..payloadIndex][payloadIndex - 1] == b;
      if phase == CmdClass {
        frameClass := b;
        phase := Cmd;
      } else {
        assert payloadBuf[..payloadIndex][0] == old(payloadBuf[..payloadIndex])[0];
        frameCmd := b;
        frameLength := expected - 2;
        phase := if frameLength > 0 then Data else CrcLo;
      }
    }

    method HandleData(b: Byte)
      requires Valid() && phase == Data
      modifies this, payloadBuf, frameData
      ensures Valid() && View() == Handle(old(View()), b)
    {
      frameData[payloadIndex - 2] := b;
      ghost var was := payloadBuf[..payloadIndex];
      Push(b);
      assert forall k :: 0 <= k < |was| ==> payloadBuf[..payloadIndex][k] == was[k];
      assert payloadBuf[..payloadIndex][payloadIndex - 1] == b;
      if payloadIndex >= expected {
        phase := CrcLo;
      }
    }

    method HandleCrc(b: Byte)
      requires Valid() && (phase == CrcLo || phase == CrcHi)
      modifies this
      ensures Valid() && View() == Handle(old(View()), b)
    {
      if phase == CrcLo {
        frameCrc := b;
        phase := CrcHi;
      } else {
        frameCrc := frameCrc + 256 * b;
        phase := Tail;
      }
    }

    method HandleTail(b: Byte)
      requires Valid() && phase == Tail
      modifies this
      ensures Valid() && View() == Handle(old(View()), b)
    {
      if b != TAIL {
        stats := stats.(tailErrors := stats.tailErrors + 1);
      } else {
        var crc := CalcCrc16(table, payloadBuf[..expected]);
        if crc != frameCrc {
          stats := stats.(crcErrors := stats.crcErrors + 1);
        } else {
          stats := stats.(frames := stats.frames + 1);
          assert frameData[..frameLength] == payloadBuf[..expected][2..];
          delivered := delivered + [Message(frameClass, frameCmd, frameData[..frameLength])];
        }
      }
      phase := Idle;
    }

    method PutByte(b: Byte)
      requires Valid()
      modifies this, payloadBuf, frameData
      ensures Valid() && View() == Put(old(View()), b)
    {
      stats := stats.(bytes := stats.bytes + 1);
      match phase
      case Idle => HandleIdle(b);
      case LenLo => HandleLength(b);
      case LenHi => HandleLength(b);
      case CmdClass => HandleCommand(b);
      case Cmd => HandleCommand(b);
      case Data => HandleData(b);
      case CrcLo => HandleCrc(b);
      case CrcHi => HandleCrc(b);
      case Tail => HandleTail(b);
    }

    method PutData(bytes: seq<Byte>)
      requires Valid()
      modifies this, payloadBuf, frameData
      ensures Valid() && View() == Feed(old(View()), bytes)
    {
      var i := 0;
      while i < |bytes|
        invariant 0 <= i <= |bytes| && Valid() && View() == Feed(old(View()), bytes[..i])
      {
        assert bytes[..i + 1][..i] == bytes[..i];
        PutByte(bytes[i]);
        i := i + 1;
      }
      assert bytes[..i] == bytes;
    }

    /** A reset or timeout abandons the frame under construction. */
    method Reset()
      requires Valid()
      modifies this`phase
      ensures Valid() && View() == old(View()).(phase := Idle)
    {
      phase := Idle;
    }
  }
}
