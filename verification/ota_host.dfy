/** The host object: its transfer context, the tick and the response handler
    (examples/serial_ota/host.hpp). */
module OtaHost {
  import opened Crc
  import opened Ota

  class Upgrade {
    const session: Session
    const expectedCrc: int
    var startPhase: Phase
    var endPhase: Phase
    var verifyPhase: Phase
    var offset: nat
    var ackReceived: bool
    var lastOk: bool
    var lastReceived: nat
    var nak: bool
    var retries: nat
    var verifyReceived: bool
    var verifyOk: bool

    /** The checksum is that of the image, and the phases come one after the other. */
    ghost predicate Valid()
      reads this
    {
      && expectedCrc == Crc16(session.firmware)
      && (startPhase != Done ==> endPhase == Send)
      && (endPhase != Done ==> verifyPhase == Send)
    }

    ghost function View(): Host
      reads this
    {
      Host(startPhase, endPhase, verifyPhase, offset, ackReceived, lastOk, lastReceived, nak, retries,
           verifyReceived, verifyOk)
    }

    constructor (table: array<Bits>, c: Session)
      requires IsTable(table[..])
      ensures Valid() && session == c && View() == FRESH_HOST
    {
      session := c;
      startPhase, endPhase, verifyPhase := Send, Send, Send;
      offset, lastReceived, retries := 0, 0, 0;
      ackReceived, lastOk, nak, verifyReceived, verifyOk := false, true, false, false, false;
      var crc := CalcCrc16(table, c.firmware);
      expectedCrc := crc;
    }

    /** A request is what the protocol calls for at this point: the start once, at the beginning;
        chunks of the image at their own offset, only after the start was acknowledged; the end
        once everything has been sent; the verify only after the end was acknowledged. */
    ghost predicate CalledFor(r: Request, first: bool)
      reads this
    {
      match r
      case Start(total, start, crc) =>
        first && total == |session.firmware| && start == session.start && crc == Crc16(session.firmware)
      case Chunk(at, bytes) =>
        && startPhase == Done
        && 0 <= at && at + |bytes| <= |session.firmware| && bytes == session.firmware[at..at + |bytes|]
        && |bytes| <= session.chunkSize && offset == at + |bytes|
      case End => startPhase == Done && offset >= |session.firmware|
      case Verify => endPhase == Done
    }

    method StartAction() returns (sent: seq<Request>, status: Status)
      requires Valid()
      modifies `startPhase, `ackReceived, `offset
      ensures Valid() && Acted(View(), sent, status) == SendStart(session, old(View()))
      ensures |sent| <= 1 && (sent != [] ==> CalledFor(sent[0], old(startPhase) == Send))
      ensures startPhase != Send && (status == Success <==> startPhase == Done)
    {
      if startPhase == Done {
        return [], Success;
      }
      if startPhase == Send {
        ackReceived, offset, startPhase := false, 0, Wait;
        return [Start(|session.firmware|, session.start, expectedCrc)], Running;
      }
      if !ackReceived {
        return [], Running;
      }
      if lastOk {
        startPhase := Done;
        return [], Success;
      }
      return [], Failure;
    }

    /** After a rejected chunk go back to what the device has, unless it has been too often. */
    method Rewind() returns (tooOften: bool)
      requires Valid()
      modifies `nak, `retries, `offset
      ensures Valid() && View() == Rewound(old(View())) && !nak
      ensures tooOften == (old(nak) && retries > MAX_RETRIES)
    {
      tooOften := false;
      if nak {
        nak, retries := false, retries + 1;
        if retries > MAX_RETRIES {
          return true;
        }
        offset := lastReceived;
      }
    }

    method ChunksAction() returns (sent: seq<Request>, status: Status)
      requires Valid() && startPhase == Done
      modifies `nak, `retries, `offset
      ensures Valid() && Acted(View(), sent, status) == SendChunks(session, old(View()))
      ensures |sent| <= 1 && (sent != [] ==> CalledFor(sent[0], false))
      ensures status == Success ==> offset >= |session.firmware|
    {
      var tooOften := Rewind();
      if tooOften {
        return [], Failure;
      }
      if offset >= |session.firmware| {
        return [], Success;
      }
      var chunk := NextChunk(session, offset);
      offset := offset + |chunk.bytes|;
      return [chunk], Running;
    }

    method EndAction() returns (sent: seq<Request>, status: Status)
      requires Valid() && startPhase == Done && offset >= |session.firmware|
      modifies `endPhase, `ackReceived, `offset, `nak
      ensures Valid() && Acted(View(), sent, status) == SendEnd(session, old(View()))
      ensures |sent| <= 1 && (sent != [] ==> CalledFor(sent[0], false))
      ensures status == Success <==> endPhase == Done
    {
      if endPhase == Done {
        return [], Success;
      }
      if endPhase == Send {
        ackReceived, endPhase := false, Wait;
        return [End], Running;
      }
      if !ackReceived {
        return [], Running;
      }
      if lastOk {
        endPhase := Done;
        return [], Success;
      }
      if lastReceived < |session.firmware| {
        offset, endPhase, ackReceived, nak := lastReceived, Send, false, false;
        return [], Running;
      }
      return [], Failure;
    }

    method VerifyAction() returns (sent: seq<Request>, status: Status)
      requires Valid() && endPhase == Done
      modifies `verifyPhase, `verifyReceived, `verifyOk
      ensures Valid() && Acted(View(), sent, status) == SendVerify(old(View()))
      ensures |sent| <= 1 && (sent != [] ==> CalledFor(sent[0], false))
      ensures status == Success ==> verifyPhase == Done
    {
      if verifyPhase == Done {
        return [], Success;
      }
      if verifyPhase == Send {
        verifyReceived, verifyOk, verifyPhase := false, false, Wait;
        return [Verify], Running;
      }
      if !verifyReceived {
        return [], Running;
      }
      verifyPhase := Done;
      return [], if verifyOk then Success else Failure;
    }

    /** The end and, once it is acknowledged, the verify. */
    method FinishActions() returns (sent: seq<Request>, status: Status)
      requires Valid() && startPhase == Done && offset >= |session.firmware|
      modifies `endPhase, `ackReceived, `offset, `nak, `verifyPhase, `verifyReceived, `verifyOk
      ensures Valid() && Acted(View(), sent, status) == AfterChunks(session, old(View()))
      ensures |sent| <= 1 && (sent != [] ==> CalledFor(sent[0], false))
      ensures status == Success ==> verifyPhase == Done
    {
      sent, status := EndAction();
      if status == Success {
        sent, status := VerifyAction();
      }
    }

    /** The chunks and what follows them. */
    method TransferActions() returns (sent: seq<Request>, status: Status)
      requires Valid() && startPhase == Done
      modifies `endPhase, `ackReceived, `offset, `nak, `retries, `verifyPhase, `verifyReceived, `verifyOk
      ensures Valid() && Acted(View(), sent, status) == AfterStart(session, old(View()))
      ensures |sent| <= 1 && (sent != [] ==> CalledFor(sent[0], false))
      ensures status == Success ==> verifyPhase == Done
    {
      sent, status := ChunksAction();
      if status == Success {
        sent, status := FinishActions();
      }
    }

    /** One tick of the tree's sequence: the actions run from the first until one does not succeed,
        so at most one request goes out, and only one that is called for. */
    method TickOnce() returns (sent: seq<Request>, status: Status)
      requires Valid()
      modifies this
      ensures Valid() && Acted(View(), sent, status) == Tick(session, old(View()))
      ensures |sent| <= 1 && (sent != [] ==> CalledFor(sent[0], old(startPhase) == Send))
      ensures startPhase != Send
      ensures status == Success ==> verifyPhase == Done
    {
      sent, status := StartAction();
      if status == Success {
        sent, status := TransferActions();
      }
    }

    /** A reply changes what it reports on and nothing else; sizes are unsigned on the wire. */
    method Respond(r: Reply)
      requires Valid()
      requires r.VerifyReply? || r.received >= 0
      modifies `ackReceived, `lastOk, `lastReceived, `nak, `retries, `verifyReceived, `verifyOk
      ensures Valid() && View() == OnResponse(old(View()), r)
    {
      match r
      case VerifyReply(ok, crc) =>
        verifyOk, verifyReceived := ok, true;
      case ChunkAck(ok, received) =>
        if ok {
          retries := 0;
        } else {
          lastReceived, nak := received, true;
        }
      case StartAck(ok, received) =>
        lastOk, lastReceived, ackReceived := ok, received, true;
      case EndAck(ok, received) =>
        lastOk, lastReceived, ackReceived := ok, received, true;
    }
  }
}
