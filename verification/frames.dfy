/** Frames of the serial link: what goes on the wire, and the builder that writes it into a
    caller's buffer (examples/serial_ota/protocol.hpp). */
module Frames {
  import opened Crc

  const HEADER: Byte := 0xAA
  const TAIL: Byte := 0x55

  /** Header, two length bytes, two CRC bytes and the tail. */
  const OVERHEAD := 6

  datatype Message = Message(cmdClass: Byte, cmd: Byte, data: seq<Byte>)

  function Payload(m: Message): seq<Byte> {
    [m.cmdClass, m.cmd] + m.data
  }

  /** The payload length fits the two length bytes. */
  predicate Sendable(m: Message) {
    |m.data| <= 0xfffd
  }

  function Low(n: int): Byte
    requires 0 <= n < 0x1_0000
  {
    n % 256
  }

  function High(n: int): Byte
    requires 0 <= n < 0x1_0000
  {
    n / 256
  }

  lemma LowHigh(n: int)
    requires 0 <= n < 0x1_0000
    ensures Low(n) + 256 * High(n) == n
  {
  }

  /** A frame around some payload with the given checksum. */
  function Enclose(payload: seq<Byte>, crc: int): seq<Byte>
    requires |payload| < 0x1_0000 && 0 <= crc < 0x1_0000
  {
    [HEADER, Low(|payload|), High(|payload|)] + payload + [Low(crc), High(crc), TAIL]
  }

  function Wire(m: Message): seq<Byte>
    requires Sendable(m)
  {
    CrcInRange(Payload(m));
    Enclose(Payload(m), Crc16(Payload(m)))
  }

  /** Copy the bytes into the buffer at the offset. */
  method CopyIn(buf: array<Byte>, offset: nat, bytes: seq<Byte>)
    requires offset + |bytes| <= buf.Length
    modifies buf
    ensures buf[..] == old(buf[..])[..offset] + bytes + old(buf[..])[offset + |bytes|..]
  {
    var i := 0;
    while i < |bytes|
      invariant 0 <= i <= |bytes|
      invariant buf[..offset] == old(buf[..offset])
      invariant forall k :: 0 <= k < i ==> buf[offset + k] == bytes[k]
      invariant forall k :: offset + |bytes| <= k < buf.Length ==> buf[k] == old(buf[k])
    {
      buf[offset + i] := bytes[i];
      i := i + 1;
    }
  }

  /** Writing b right behind a writes a + b. */
  lemma Joined(was: seq<Byte>, a: seq<Byte>, b: seq<Byte>)
    requires |a| + |b| <= |was|
    ensures var s := a + was[|a|..];
            s[..|a|] + b + s[|a| + |b|..] == (a + b) + was[|a + b|..]
  {
  }

  // ---- the builder and its 16-bit payload length ----------------------------------------

  /** The payload length as the builder computes it, in 16 bits. */
  function PayloadLength(data: seq<Byte>): (n: nat)
    ensures n < 0x1_0000 && n <= |data| + 2
  {
    (2 + |data|) % 0x1_0000
  }

  /** The builder's check of its buffer. */
  predicate Passes(size: nat, data: seq<Byte>) {
    |data| <= 0xffff && PayloadLength(data) + OVERHEAD <= size
  }

  /** The bytes the builder writes once the check has passed. */
  function Written(m: Message): (bytes: seq<Byte>)
    ensures |bytes| == |m.data| + 2 + OVERHEAD
  {
    var length := PayloadLength(m.data);
    CrcInRange(Payload(m)[..length]);
    var crc := Crc16(Payload(m)[..length]);
    [HEADER, Low(length), High(length)] + Payload(m) + [Low(crc), High(crc), TAIL]
  }

  /** For every message whose payload length fits 16 bits that is its wire form. */
  lemma WrittenIsWire(m: Message)
    requires Sendable(m)
    ensures Written(m) == Wire(m)
  {
    assert Payload(m)[..PayloadLength(m.data)] == Payload(m);
  }

  /** The check protects every buffer exactly when the payload length does not wrap. */
  lemma CheckSufficesIff(m: Message)
    ensures (forall size: nat :: Passes(size, m.data) ==> |Written(m)| <= size) <==>
              |m.data| <= 0xfffd || |m.data| > 0xffff
  {
    if 0xfffe <= |m.data| <= 0xffff {
      assert PayloadLength(m.data) <= 1;
      assert Passes(7, m.data) && |Written(m)| > 7;
    }
  }

  /** With 65534 bytes of data a buffer of 7 bytes passes and 65542 bytes are written. */
  lemma CheckFails(m: Message)
    requires |m.data| == 65534
    ensures Passes(7, m.data) && |Written(m)| == 65542
  {
    assert PayloadLength(m.data) == 0;
  }

  /** The length of the frame, 0 when it was refused; or the write that leaves the buffer. */
  datatype Built = Built(length: nat) | Overrun

  /** The frame up to its checksum. */
  method WriteBody(buf: array<Byte>, length: nat, cmdClass: Byte, cmd: Byte, data: seq<Byte>)
    requires length < 0x1_0000 && 5 + |data| <= buf.Length
    modifies buf
    ensures buf[..] == [HEADER, Low(length), High(length)] + Payload(Message(cmdClass, cmd, data))
                       + old(buf[..])[5 + |data|..]
  {
    ghost var was := buf[..];
    var head := [HEADER, Low(length), High(length), cmdClass, cmd];
    CopyIn(buf, 0, head);
    CopyIn(buf, 5, data);
    BodyJoined(was, Low(length), High(length), cmdClass, cmd, data);
  }

  /** The five bytes and the data, written one behind the other, are the length and the payload. */
  lemma BodyJoined(was: seq<Byte>, lo: Byte, hi: Byte, cmdClass: Byte, cmd: Byte, data: seq<Byte>)
    requires 5 + |data| <= |was|
    ensures var head := [HEADER, lo, hi, cmdClass, cmd];
            var s := was[..0] + head + was[0 + |head|..];
            s[..5] + data + s[5 + |data|..] ==
            [HEADER, lo, hi] + Payload(Message(cmdClass, cmd, data)) + was[5 + |data|..]
  {
    var head := [HEADER, lo, hi, cmdClass, cmd];
    assert was[..0] + head + was[0 + |head|..] == head + was[5..];
    Joined(was, head, data);
    assert head + data == [HEADER, lo, hi] + Payload(Message(cmdClass, cmd, data));
  }

  /** Checksum the given number of bytes behind the length, and close the frame at `end`. */
  method WriteEnd(table: array<Bits>, buf: array<Byte>, length: nat, end: nat)
    requires IsTable(table[..]) && 3 + length <= end && end + 3 <= buf.Length
    modifies buf
    ensures var crc := Crc16(old(buf[3..3 + length]));
            && 0 <= crc < 0x1_0000
            && buf[..] == old(buf[..])[..end] + [Low(crc), High(crc), TAIL] + old(buf[..])[end + 3..]
  {
    var crc := CalcCrc16(table, buf[3..3 + length]);
    CrcInRange(buf[3..3 + length]);
    CopyIn(buf, end, [Low(crc), High(crc), TAIL]);
  }

  /** Write the frame into the buffer. A buffer that fails the check is left alone; one that passes
      without having room for what is written is overrun, and the model stops there. */
  method BuildFrame(table: array<Bits>, buf: array<Byte>, cmdClass: Byte, cmd: Byte, data: seq<Byte>)
    returns (r: Built)
    requires IsTable(table[..])
    modifies buf
    ensures var m := Message(cmdClass, cmd, data);
            if !Passes(buf.Length, data) then r == Built(0) && buf[..] == old(buf[..])
            else if |Written(m)| > buf.Length then r == Overrun
            else r == Built(|Written(m)|) && buf[..] == Written(m) + old(buf[..])[|Written(m)|..]
  {
    var length := PayloadLength(data);
    if |data| > 0xffff || length + OVERHEAD > buf.Length {
      return Built(0);
    }
    if |data| + 2 + OVERHEAD > buf.Length {
      return Overrun;
    }
    ghost var was := buf[..];
    ghost var payload := Payload(Message(cmdClass, cmd, data));
    ghost var body := [HEADER, Low(length), High(length)] + payload;
    var end := 5 + |data|;
    WriteBody(buf, length, cmdClass, cmd, data);
    assert buf[..] == body + was[end..];
    assert buf[3..3 + length] == payload[..length];
    WriteEnd(table, buf, length, end);
    Joined(was, body, [Low(Crc16(payload[..length])), High(Crc16(payload[..length])), TAIL]);
    return Built(end + 3);
  }

  /** Whatever the builder does not refuse and can hold is the wire form, for every message whose
      payload length fits. */
  lemma SendableIsBuilt(m: Message, size: nat)
    requires Sendable(m)
    ensures Passes(size, m.data) <==> |Wire(m)| <= size
    ensures Written(m) == Wire(m)
  {
    WrittenIsWire(m);
  }
}
