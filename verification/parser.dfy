/** The byte-by-byte frame parser: its transitions, the parser object with its buffers, and what
    it makes of a stream of intact and damaged frames (examples/serial_ota/parser.hpp). */
module Parsing {
  import opened Crc
  import opened Frames

  const MAX_DATA := 256

  datatype Phase = Idle | LenLo | LenHi | CmdClass | Cmd | Data | CrcLo | CrcHi | Tail

  datatype Stats = Stats(bytes: nat, frames: nat, syncErrors: nat, crcErrors: nat, tailErrors: nat, lengthErrors: nat)

  /** `payload` is the part of the payload read so far, `delivered` what the callback has seen. */
  datatype State = State(
    phase: Phase, expected: int, payload: seq<Byte>, crc: int, stats: Stats, delivered: seq<Message>)

  function MessageOf(payload: seq<Byte>): Message
    requires |payload| >= 2
  {
    Message(payload[0], payload[1], payload[2..])
  }

  /** The last byte of a frame: deliver it, or count why not. */
  function Finish(s: State, b: Byte): State {
    if b != TAIL then s.(phase := Idle, stats := s.stats.(tailErrors := s.stats.tailErrors + 1))
    else if Crc16(s.payload) != s.crc || |s.payload| < 2 then
      s.(phase := Idle, stats := s.stats.(crcErrors := s.stats.crcErrors + 1))
    else
      s.(phase := Idle, stats := s.stats.(frames := s.stats.frames + 1),
         delivered := s.delivered + [MessageOf(s.payload)])
  }

  /** The handler of the current phase. */
  function Handle(s: State, b: Byte): State {
    match s.phase
    case Idle =>
      if b == HEADER then s.(phase := LenLo, expected := 0, payload := [], crc := 0)
      else s.(stats := s.stats.(syncErrors := s.stats.syncErrors + 1))
    case LenLo => s.(phase := LenHi, expected := b)
    case LenHi =>
      var length := s.expected + 256 * b;
      if length < 2 || length - 2 > MAX_DATA then
        s.(phase := Idle, expected := length, stats := s.stats.(lengthErrors := s.stats.lengthErrors + 1))
      else s.(phase := CmdClass, expected := length)
    case CmdClass => s.(phase := Cmd, payload := s.payload + [b])
    case Cmd => s.(phase := if s.expected > 2 then Data else CrcLo, payload := s.payload + [b])
    case Data => s.(phase := if |s.payload| + 1 >= s.expected then CrcLo else Data, payload := s.payload + [b])
    case CrcLo => s.(phase := CrcHi, crc := b)
    case CrcHi => s.(phase := Tail, crc := s.crc + 256 * b)
    case Tail => Finish(s, b)
  }

  function Put(s: State, b: Byte): State {
    Handle(s.(stats := s.stats.(bytes := s.stats.bytes + 1)), b)
  }

  function Feed(s: State, bytes: seq<Byte>): State {
    if bytes == [] then s else Put(Feed(s, bytes[..|bytes| - 1]), bytes[|bytes| - 1])
  }

  lemma {:induction false} FeedConcat(s: State, a: seq<Byte>, b: seq<Byte>)
    ensures Feed(s, a + b) == Feed(Feed(s, a), b)
    decreases |b|
  {
    if b == [] {
      assert a + b == a;
    } else {
      FeedConcat(s, a, b[..|b| - 1]);
      assert (a + b)[..|a + b| - 1] == a + b[..|b| - 1];
    }
  }

  lemma FeedOne(s: State, b: Byte)
    ensures Feed(s, [b]) == Put(s, b)
  {
    assert [b][..0] == [];
  }

  function Counted(s: State, n: nat): State {
    s.(stats := s.stats.(bytes := s.stats.bytes + n))
  }

  // ---- one frame ------------------------------------------------------------------------

  lemma {:induction false} FeedData(s: State, data: seq<Byte>)
    requires s.phase == Data && data != [] && |s.payload| + |data| == s.expected
    ensures Feed(s, data) == Counted(s, |data|).(phase := CrcLo, payload := s.payload + data)
    decreases |data|
  {
    var front, last := data[..|data| - 1], data[|data| - 1];
    FeedPart(s, front);
    assert data == front + [last];
  }

  lemma {:induction false} FeedPart(s: State, data: seq<Byte>)
    requires s.phase == Data && |s.payload| + |data| < s.expected
    ensures Feed(s, data) == Counted(s, |data|).(payload := s.payload + data)
    decreases |data|
  {
    if data == [] {
      assert s.payload + data == s.payload;
    } else {
      var front, last := data[..|data| - 1], data[|data| - 1];
      FeedPart(s, front);
      assert s.payload + data == s.payload + front + [last];
    }
  }

  lemma FeedPayload(s: State, payload: seq<Byte>)
    requires s.phase == CmdClass && s.payload == [] && |payload| == s.expected && 2 <= |payload|
    ensures Feed(s, payload) == Counted(s, |payload|).(phase := CrcLo, payload := payload)
  {
    var head, data := payload[..2], payload[2..];
    assert payload == [payload[0]] + [payload[1]] + data;
    var s1 := Put(s, payload[0]);
    var s2 := Put(s1, payload[1]);
    FeedOne(s, payload[0]);
    FeedConcat(s, [payload[0]], [payload[1]]);
    FeedOne(s1, payload[1]);
    FeedConcat(s, [payload[0]] + [payload[1]], data);
    if data != [] {
      FeedData(s2, data);
    }
    assert s2.payload == head;
  }

  lemma FeedThree(s: State, a: Byte, b: Byte, c: Byte)
    ensures Feed(s, [a, b, c]) == Put(Put(Put(s, a), b), c)
  {
    FeedOne(s, a);
    FeedConcat(s, [a], [b]);
    FeedOne(Put(s, a), b);
    FeedConcat(s, [a] + [b], [c]);
    FeedOne(Put(Put(s, a), b), c);
    assert [a, b, c] == [a] + [b] + [c];
  }

  lemma FeedHead(s: State, length: int)
    requires s.phase == Idle && 2 <= length <= MAX_DATA + 2
    ensures Feed(s, [HEADER, Low(length), High(length)]) == Headed(s, length)
  {
    FeedThree(s, HEADER, Low(length), High(length));
    LowHigh(length);
  }

  lemma FeedEnd(s: State, crc: int)
    requires s.phase == CrcLo && 0 <= crc < 0x1_0000
    ensures Feed(s, [Low(crc), High(crc), TAIL]) == Finish(Counted(s, 3).(phase := Tail, crc := crc), TAIL)
  {
    FeedThree(s, Low(crc), High(crc), TAIL);
    LowHigh(crc);
  }

  /** The parser just before the last byte of a frame. */
  function AtTail(s: State, payload: seq<Byte>, crc: int): State {
    Counted(s, |payload| + 6).(phase := Tail, expected := |payload|, payload := payload, crc := crc)
  }

  lemma FeedVia(s: State, a: seq<Byte>, s1: State, b: seq<Byte>, s2: State, c: seq<Byte>, s3: State)
    requires Feed(s, a) == s1 && Feed(s1, b) == s2 && Feed(s2, c) == s3
    ensures Feed(s, a + b + c) == s3
  {
    FeedConcat(s, a, b);
    FeedConcat(s, a + b, c);
  }

  /** The parser after the length bytes, and after the payload. */
  function Headed(s: State, length: int): State {
    Counted(s, 3).(phase := CmdClass, expected := length, payload := [], crc := 0)
  }

  function Loaded(s: State, payload: seq<Byte>): State {
    Counted(Headed(s, |payload|), |payload|).(phase := CrcLo, payload := payload)
  }

  lemma LoadedAtTail(s: State, payload: seq<Byte>, crc: int)
    ensures Counted(Loaded(s, payload), 3).(phase := Tail, crc := crc) == AtTail(s, payload, crc)
  {
  }

  /** A whole frame, whatever its payload and checksum, is judged by its checksum alone. */
  lemma FeedFrame(s: State, payload: seq<Byte>, crc: int)
    requires s.phase == Idle && 2 <= |payload| <= MAX_DATA + 2 && 0 <= crc < 0x1_0000
    ensures Feed(s, Enclose(payload, crc)) == Finish(AtTail(s, payload, crc), TAIL)
  {
    FeedHead(s, |payload|);
    FeedPayload(Headed(s, |payload|), payload);
    FeedEnd(Loaded(s, payload), crc);
    LoadedAtTail(s, payload, crc);
    FeedVia(s, [HEADER, Low(|payload|), High(|payload|)], Headed(s, |payload|), payload, Loaded(s, payload),
            [Low(crc), High(crc), TAIL], Finish(AtTail(s, payload, crc), TAIL));
  }

  // ---- streams of intact and damaged frames ---------------------------------------------

  /** One byte between the command class and the last CRC byte has become another. A flipped bit
      is such a change. */
  datatype Damage = Intact | Changed(at: nat, b: Byte)

  datatype Sent = Sent(m: Message, damage: Damage)

  /** The bytes from the command class to the last CRC byte. */
  function Covered(m: Message): seq<Byte>
    requires Sendable(m)
  {
    Wire(m)[3..|m.data| + 7]
  }

  predicate ValidSent(x: Sent) {
    |x.m.data| <= MAX_DATA &&
    (x.damage.Changed? ==> x.damage.at < |Covered(x.m)| && Covered(x.m)[x.damage.at] != x.damage.b)
  }

  function OnWire(x: Sent): seq<Byte>
    requires ValidSent(x)
  {
    if x.damage.Intact? then Wire(x.m) else Wire(x.m)[3 + x.damage.at := x.damage.b]
  }

  /** The payload and the checksum that arrive. */
  function ArrivedPayload(x: Sent): seq<Byte>
    requires ValidSent(x)
  {
    var p := Payload(x.m);
    if x.damage.Changed? && x.damage.at < |p| then p[x.damage.at := x.damage.b] else p
  }

  function ArrivedCrc(x: Sent): (crc: int)
    requires ValidSent(x)
    ensures 0 <= crc < 0x1_0000
  {
    CrcInRange(Payload(x.m));
    var p, crc := Payload(x.m), Crc16(Payload(x.m));
    if x.damage.Changed? && x.damage.at == |p| then x.damage.b + 256 * High(crc)
    else if x.damage.Changed? && x.damage.at == |p| + 1 then Low(crc) + 256 * x.damage.b
    else crc
  }

  lemma OnWireEncloses(x: Sent)
    requires ValidSent(x)
    ensures OnWire(x) == Enclose(ArrivedPayload(x), ArrivedCrc(x))
  {
    CrcInRange(Payload(x.m));
  }

  /** The checksum tells intact from damaged. */
  lemma ChecksumTells(x: Sent)
    requires ValidSent(x)
    ensures Crc16(ArrivedPayload(x)) == ArrivedCrc(x) <==> x.damage.Intact?
  {
    var p := Payload(x.m);
    CrcInRange(p);
    LowHigh(Crc16(p));
    if x.damage.Changed? {
      assert Covered(x.m) == p + [Low(Crc16(p)), High(Crc16(p))];
      if x.damage.at < |p| {
        OneByteDetected(p, x.damage.at, x.damage.b);
      }
    }
  }

  /** The byte with its k-th bit flipped. */
  function FlipBit(b: Byte, k: nat): (c: int)
    requires k < 8
  {
    ValueOf(BitsOf(b, 8)[k := !BitsOf(b, 8)[k]])
  }

  lemma FlipChanges(b: Byte, k: nat)
    requires k < 8
    ensures 0 <= FlipBit(b, k) < 256 && FlipBit(b, k) != b
  {
    var bits := BitsOf(b, 8);
    var flipped := bits[k := !bits[k]];
    BitsOfValue(flipped);
    assert flipped[k] != bits[k];
    assert Power(8) == 256 by {
      assert Power(4) == 16;
    }
  }

  /** The channel noise of the demo, one flipped bit between class and last CRC byte, is damage. */
  lemma FlippedBitIsDamage(m: Message, at: nat, k: nat)
    requires |m.data| <= MAX_DATA && at < |Covered(m)| && k < 8
    ensures 0 <= FlipBit(Covered(m)[at], k) < 256
    ensures ValidSent(Sent(m, Changed(at, FlipBit(Covered(m)[at], k))))
  {
    FlipChanges(Covered(m)[at], k);
  }

  /** What the parser has become after one frame. */
  ghost predicate After(s: State, x: Sent, t: State) {
    && t.phase == Idle
    && t.delivered == s.delivered + (if x.damage.Intact? then [x.m] else [])
    && t.stats.frames == s.stats.frames + (if x.damage.Intact? then 1 else 0)
    && t.stats.crcErrors == s.stats.crcErrors + (if x.damage.Intact? then 0 else 1)
    && t.stats.syncErrors == s.stats.syncErrors
    && t.stats.tailErrors == s.stats.tailErrors
    && t.stats.lengthErrors == s.stats.lengthErrors
  }

  lemma FeedSent(s: State, x: Sent)
    requires s.phase == Idle && ValidSent(x)
    ensures After(s, x, Feed(s, OnWire(x)))
  {
    OnWireEncloses(x);
    ChecksumTells(x);
    FeedFrame(s, ArrivedPayload(x), ArrivedCrc(x));
    if x.damage.Intact? {
      assert MessageOf(Payload(x.m)) == x.m;
    }
  }

  function Stream(xs: seq<Sent>): seq<Byte>
    requires forall i :: 0 <= i < |xs| ==> ValidSent(xs[i])
  {
    if xs == [] then [] else Stream(xs[..|xs| - 1]) + OnWire(xs[|xs| - 1])
  }

  function IntactOf(xs: seq<Sent>): seq<Message> {
    if xs == [] then []
    else IntactOf(xs[..|xs| - 1]) + (if xs[|xs| - 1].damage.Intact? then [xs[|xs| - 1].m] else [])
  }

  /** The parser delivers exactly the intact frames, in order, counts one CRC error for every
      damaged one and nothing else, and is ready for the next frame. */
  lemma {:induction false} StreamRoundTrip(s: State, xs: seq<Sent>)
    requires s.phase == Idle && forall i :: 0 <= i < |xs| ==> ValidSent(xs[i])
    ensures var t := Feed(s, Stream(xs));
            && t.phase == Idle
            && t.delivered == s.delivered + IntactOf(xs)
            && t.stats.frames == s.stats.frames + |IntactOf(xs)|
            && t.stats.crcErrors == s.stats.crcErrors + |xs| - |IntactOf(xs)|
            && t.stats.syncErrors == s.stats.syncErrors
            && t.stats.tailErrors == s.stats.tailErrors
            && t.stats.lengthErrors == s.stats.lengthErrors
    decreases |xs|
  {
    if xs != [] {
      var front, last := xs[..|xs| - 1], xs[|xs| - 1];
      StreamRoundTrip(s, front);
      FeedSent(Feed(s, Stream(front)), last);
      FeedConcat(s, Stream(front), OnWire(last));
    }
  }
}
