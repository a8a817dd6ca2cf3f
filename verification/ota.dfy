/** The firmware transfer over the serial link: the host's chunk, rewind and retry logic, the
    device's session, and the two together over a channel that loses frames
    (examples/serial_ota/host.hpp, examples/serial_ota/device.hpp). */
module Ota {
  import opened Crc

  /** What the host was given, and the geometry of the device's flash. */
  datatype Session = Session(firmware: seq<Byte>, start: nat, chunkSize: nat, sector: nat, flashSize: nat)

  /** The host refuses an empty image; an image fits the flash; no chunk overruns the host's
      payload buffer. */
  predicate ValidSession(c: Session) {
    && c.firmware != [] && c.start + |c.firmware| <= c.flashSize && c.sector > 0
    && CHUNK_HEADER + LongestChunk(c) <= PAYLOAD_BUFFER
  }

  /** The host copies a six-byte header and the chunk into a fixed buffer, unchecked. */
  const CHUNK_HEADER := 6
  const PAYLOAD_BUFFER := 256

  function LongestChunk(c: Session): nat {
    if |c.firmware| < c.chunkSize then |c.firmware| else c.chunkSize
  }

  datatype Request =
    | Start(total: int, start: int, crc: int)
    | Chunk(offset: int, bytes: seq<Byte>)
    | End
    | Verify

  datatype Reply =
    | StartAck(ok: bool, received: int)
    | ChunkAck(ok: bool, received: int)
    | EndAck(ok: bool, received: int)
    | VerifyReply(ok: bool, crc: int)

  // ---- the device -----------------------------------------------------------------------

  datatype Mode = Idle | Erasing | Receiving | Verifying | Complete | Error

  datatype Device = Device(
    mode: Mode, flash: seq<Byte>, total: int, start: int, received: int, expected: int, computed: int)

  /** Bytes copied into the flash; nothing when they do not fit. */
  function Written(flash: seq<Byte>, addr: int, bytes: seq<Byte>): seq<Byte> {
    if 0 <= addr && addr + |bytes| <= |flash| then flash[..addr] + bytes + flash[addr + |bytes|..] else flash
  }

  /** The aligned sector that holds the address, filled with ones. */
  function SectorStart(sector: nat, addr: nat): (a: nat)
    requires sector > 0
    ensures a <= addr
  {
    addr - addr % sector
  }

  function ErasedSector(sector: nat, flash: seq<Byte>, addr: nat): seq<Byte>
    requires sector > 0
  {
    Written(flash, SectorStart(sector, addr), seq(sector, _ => 0xFF))
  }

  /** Erase sector by sector from `addr` to `end`, stopping at the first that does not fit. */
  function Erased(sector: nat, flash: seq<Byte>, addr: nat, end: nat): (r: (seq<Byte>, bool))
    requires sector > 0
    ensures |r.0| == |flash|
    decreases end - addr
  {
    if addr >= end then (flash, true)
    else if SectorStart(sector, addr) + sector > |flash| then (flash, false)
    else Erased(sector, ErasedSector(sector, flash, addr), addr + sector, end)
  }

  function FlashCrc(flash: seq<Byte>, addr: int, length: int): int {
    if 0 <= addr && 0 <= length && addr + length <= |flash| then Crc16(flash[addr..addr + length]) else 0
  }

  function OnStart(sector: nat, d: Device, total: int, start: int, crc: int): Device
    requires sector > 0
  {
    if d.mode.Idle? && 0 <= start && 0 <= total then
      var erased := Erased(sector, d.flash, start, start + total);
      Device(if erased.1 then Receiving else Error, erased.0, total, start, 0, crc, 0)
    else d
  }

  function OnChunk(d: Device, offset: int, bytes: seq<Byte>): Device {
    if !d.mode.Receiving? then d
    else if d.start + offset + |bytes| > |d.flash| then d.(mode := Error)
    else d.(flash := Written(d.flash, d.start + offset, bytes), received := d.received + |bytes|)
  }

  function OnEnd(d: Device): Device {
    if d.mode.Receiving? then d.(mode := Verifying, computed := FlashCrc(d.flash, d.start, d.total)) else d
  }

  function OnVerify(d: Device): Device {
    if d.mode.Verifying? then d.(mode := if d.computed == d.expected then Complete else Error) else d
  }

  /** HandleOta: the device after a request. */
  function Handled(sector: nat, d: Device, r: Request): Device
    requires sector > 0
  {
    match r
    case Start(total, start, crc) => OnStart(sector, d, total, start, crc)
    case Chunk(offset, bytes) => if offset != d.received then d else OnChunk(d, offset, bytes)
    case End => if d.received != d.total then d else OnEnd(d)
    case Verify => OnVerify(d)
  }

  /** HandleOta: the device's answer; `d` is the device before the request and `e` after it. */
  function Answer(d: Device, r: Request, e: Device): Reply {
    match r
    case Start(_, _, _) => StartAck(true, e.received)
    case Chunk(offset, _) => ChunkAck(offset == d.received, e.received)
    case End => EndAck(d.received == d.total, e.received)
    case Verify => VerifyReply(e.computed == e.expected, e.computed)
  }

  // ---- the host -------------------------------------------------------------------------

  datatype Phase = Send | Wait | Done

  datatype Host = Host(
    startPhase: Phase, endPhase: Phase, verifyPhase: Phase, offset: int, ackReceived: bool, lastOk: bool,
    lastReceived: int, nak: bool, retries: int, verifyReceived: bool, verifyOk: bool)

  const FRESH_HOST := Host(Send, Send, Send, 0, false, true, 0, false, 0, false, false)

  const MAX_RETRIES := 3

  datatype Status = Success | Running | Failure

  /** What one action of the tree does: the new host, what it sends, and its status. */
  datatype Acted = Acted(host: Host, sent: seq<Request>, status: Status)

  function SendStart(c: Session, h: Host): Acted {
    match h.startPhase
    case Done => Acted(h, [], Success)
    case Send =>
      Acted(h.(ackReceived := false, offset := 0, startPhase := Wait),
            [Start(|c.firmware|, c.start, Crc16(c.firmware))], Running)
    case Wait =>
      if !h.ackReceived then Acted(h, [], Running)
      else if h.lastOk then Acted(h.(startPhase := Done), [], Success)
      else Acted(h, [], Failure)
  }

  /** A rewind after a rejected chunk. */
  function Rewound(h: Host): Host {
    if !h.nak then h
    else if h.retries + 1 > MAX_RETRIES then h.(nak := false, retries := h.retries + 1)
    else h.(nak := false, retries := h.retries + 1, offset := h.lastReceived)
  }

  /** The next chunk of the image. */
  function NextChunk(c: Session, offset: int): Request
    requires 0 <= offset <= |c.firmware|
  {
    var remaining := |c.firmware| - offset;
    var length := if remaining < c.chunkSize then remaining else c.chunkSize;
    Chunk(offset, c.firmware[offset..offset + length])
  }

  /** Every chunk of the image fits the host's buffer if and only if the longest one does. */
  lemma ChunksFitIff(c: Session)
    ensures (forall offset :: 0 <= offset <= |c.firmware| ==>
               CHUNK_HEADER + |NextChunk(c, offset).bytes| <= PAYLOAD_BUFFER) <==>
              CHUNK_HEADER + LongestChunk(c) <= PAYLOAD_BUFFER
  {
    assert |NextChunk(c, 0).bytes| == LongestChunk(c);
  }

  /** A chunk size of 251 and an image of as many bytes overrun it by one. */
  lemma ChunkOverruns(c: Session)
    requires c.chunkSize == 251 && |c.firmware| == 251
    ensures CHUNK_HEADER + |NextChunk(c, 0).bytes| == PAYLOAD_BUFFER + 1
  {
  }

  function SendChunks(c: Session, h: Host): Acted {
    var g := Rewound(h);
    if h.nak && g.retries > MAX_RETRIES then Acted(g, [], Failure)
    else if g.offset >= |c.firmware| || g.offset < 0 then Acted(g, [], Success)
    else
      var chunk := NextChunk(c, g.offset);
      Acted(g.(offset := g.offset + |chunk.bytes|), [chunk], Running)
  }

  function SendEnd(c: Session, h: Host): Acted {
    match h.endPhase
    case Done => Acted(h, [], Success)
    case Send => Acted(h.(ackReceived := false, endPhase := Wait), [End], Running)
    case Wait =>
      if !h.ackReceived then Acted(h, [], Running)
      else if h.lastOk then Acted(h.(endPhase := Done), [], Success)
      else if h.lastReceived < |c.firmware| then
        Acted(h.(offset := h.lastReceived, endPhase := Send, ackReceived := false, nak := false), [], Running)
      else Acted(h, [], Failure)
  }

  function SendVerify(h: Host): Acted {
    match h.verifyPhase
    case Done => Acted(h, [], Success)
    case Send => Acted(h.(verifyReceived := false, verifyOk := false, verifyPhase := Wait), [Verify], Running)
    case Wait =>
      if !h.verifyReceived then Acted(h, [], Running)
      else Acted(h.(verifyPhase := Done), [], if h.verifyOk then Success else Failure)
  }

  /** One tick: the sequence runs its actions from the first until one does not succeed. */
  function Tick(c: Session, h: Host): Acted {
    var a := SendStart(c, h);
    if a.status != Success then a else AfterStart(c, a.host)
  }

  function AfterStart(c: Session, h: Host): Acted {
    var a := SendChunks(c, h);
    if a.status != Success then a else AfterChunks(c, a.host)
  }

  function AfterChunks(c: Session, h: Host): Acted {
    var a := SendEnd(c, h);
    if a.status != Success then a else SendVerify(a.host)
  }

  function OnResponse(h: Host, r: Reply): Host {
    match r
    case VerifyReply(ok, crc) => h.(verifyOk := ok, verifyReceived := true)
    case ChunkAck(ok, received) => if ok then h.(retries := 0) else h.(lastReceived := received, nak := true)
    case StartAck(ok, received) => h.(lastOk := ok, lastReceived := received, ackReceived := true)
    case EndAck(ok, received) => h.(lastOk := ok, lastReceived := received, ackReceived := true)
  }

  // ---- both, and the channel between them -----------------------------------------------

  /** `up` carries requests to the device, `down` replies to the host, both in order. */
  datatype System = System(host: Host, device: Device, up: seq<Request>, down: seq<Reply>)

  /** The host ticks, the device or the host takes the next frame, or the next frame is lost. */
  datatype Label = HostTick | DeviceTakes | HostTakes | LoseUp | LoseDown

  function Begin(flash: seq<Byte>): System {
    System(FRESH_HOST, Device(Idle, flash, 0, 0, 0, 0, 0), [], [])
  }

  function Step(c: Session, s: System, l: Label): System
    requires c.sector > 0
  {
    match l
    case HostTick =>
      var a := Tick(c, s.host);
      s.(host := a.host, up := s.up + a.sent)
    case DeviceTakes =>
      if s.up == [] then s
      else
        var e := Handled(c.sector, s.device, s.up[0]);
        s.(device := e, up := s.up[1..], down := s.down + [Answer(s.device, s.up[0], e)])
    case HostTakes => if s.down == [] then s else s.(host := OnResponse(s.host, s.down[0]), down := s.down[1..])
    case LoseUp => if s.up == [] then s else s.(up := s.up[1..])
    case LoseDown => if s.down == [] then s else s.(down := s.down[1..])
  }

  function RunFrom(c: Session, s: System, schedule: seq<Label>): System
    requires c.sector > 0
    decreases |schedule|
  {
    if schedule == [] then s else RunFrom(c, Step(c, s, schedule[0]), schedule[1..])
  }
}
