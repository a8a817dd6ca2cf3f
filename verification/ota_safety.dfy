/** Whatever frames are lost or delayed, the flash holds a prefix of the firmware, and a verified
    transfer is a complete one. */
module OtaSafety {
  import opened Crc
  import opened Ota

  /** The image has been written and checked. */
  predicate Landed(d: Device) {
    d.mode.Verifying? || d.mode.Complete?
  }

  /** The received part of the image is in the flash. */
  predicate Prefix(c: Session, d: Device) {
    && 0 <= d.received <= |c.firmware|
    && c.start + |c.firmware| <= |d.flash|
    && d.flash[c.start..c.start + d.received] == c.firmware[..d.received]
  }

  predicate DeviceOk(c: Session, d: Device) {
    && |d.flash| == c.flashSize
    && !d.mode.Erasing?
    && (d.mode.Idle? ==> d.received == 0)
    && (!d.mode.Idle? ==>
          d.total == |c.firmware| && d.start == c.start && d.expected == Crc16(c.firmware) && Prefix(c, d))
    && (d.mode.Error? ==> d.received == 0)
    && (Landed(d) ==> d.received == d.total && d.computed == d.expected)
  }

  /** A request on its way is one the host may send, at a time it may send it. */
  predicate RequestOk(c: Session, h: Host, d: Device, r: Request) {
    match r
    case Start(total, start, crc) =>
      h.startPhase == Wait && total == |c.firmware| && start == c.start && crc == Crc16(c.firmware)
    case Chunk(offset, bytes) =>
      && h.startPhase == Done
      && 0 <= offset && offset + |bytes| <= |c.firmware| && bytes == c.firmware[offset..offset + |bytes|]
    case End => h.startPhase == Done
    case Verify => h.startPhase == Done && h.verifyPhase != Send && Landed(d)
  }

  predicate ReplyOk(c: Session, h: Host, d: Device, r: Reply) {
    match r
    case StartAck(_, received) => h.startPhase == Wait && !d.mode.Idle? && 0 <= received <= |c.firmware|
    case ChunkAck(_, received) => h.startPhase == Done && 0 <= received <= |c.firmware|
    case EndAck(ok, received) => h.startPhase == Done && 0 <= received <= |c.firmware| && (ok ==> Landed(d))
    case VerifyReply(ok, _) => h.startPhase == Done && h.verifyPhase != Send && ok && Landed(d)
  }

  predicate HostOk(c: Session, h: Host, d: Device) {
    && 0 <= h.offset <= |c.firmware| && 0 <= h.lastReceived <= |c.firmware|
    && (h.startPhase != Done ==> h.endPhase == Send && h.verifyPhase == Send)
    && (h.startPhase == Send ==> !h.ackReceived)
    && (h.startPhase == Done || h.ackReceived ==> !d.mode.Idle?)
    && (h.endPhase == Done || (h.endPhase == Wait && h.ackReceived && h.lastOk) ==> Landed(d))
    && (h.endPhase != Done ==> h.verifyPhase == Send)
    && (h.verifyPhase != Send && h.verifyReceived ==> h.verifyOk)
    && (h.verifyPhase == Send ==> !h.verifyReceived)
  }

  /** Until the start has been acknowledged there is nothing else on the way. */
  predicate ChannelOk(s: System) {
    && (s.host.startPhase == Send || (s.host.startPhase == Wait && s.host.ackReceived) ==> s.up == [] && s.down == [])
    && (s.host.startPhase == Wait ==> |s.up| + |s.down| <= 1)
  }

  ghost predicate Ok(c: Session, s: System) {
    && DeviceOk(c, s.device)
    && HostOk(c, s.host, s.device)
    && ChannelOk(s)
    && (forall i :: 0 <= i < |s.up| ==> RequestOk(c, s.host, s.device, s.up[i]))
    && (forall i :: 0 <= i < |s.down| ==> ReplyOk(c, s.host, s.device, s.down[i]))
  }

  // ---- the device -----------------------------------------------------------------------

  lemma WriteExtendsPrefix(c: Session, d: Device, bytes: seq<Byte>)
    requires Prefix(c, d) && d.received + |bytes| <= |c.firmware|
    requires bytes == c.firmware[d.received..d.received + |bytes|]
    ensures var e := d.(flash := Written(d.flash, c.start + d.received, bytes), received := d.received + |bytes|);
            Prefix(c, e) && |e.flash| == |d.flash|
  {
    var e := d.(flash := Written(d.flash, c.start + d.received, bytes), received := d.received + |bytes|);
    assert e.flash[c.start..c.start + e.received] == d.flash[c.start..c.start + d.received] + bytes;
    assert c.firmware[..e.received] == c.firmware[..d.received] + bytes;
  }

  lemma WholePrefix(c: Session, d: Device)
    requires Prefix(c, d) && d.received == |c.firmware|
    ensures d.flash[c.start..c.start + |c.firmware|] == c.firmware
  {
  }

  /** The device keeps its part, leaves Idle for good and never loses a landed image. */
  predicate Advances(c: Session, h: Host, d: Device, r: Request)
    requires c.sector > 0
  {
    var e := Handled(c.sector, d, r);
    && DeviceOk(c, e)
    && !e.mode.Idle?
    && (Landed(d) ==> Landed(e))
    && ReplyOk(c, h, e, Answer(d, r, e))
  }

  lemma StartAdvances(c: Session, h: Host, d: Device, r: Request)
    requires ValidSession(c) && DeviceOk(c, d) && RequestOk(c, h, d, r) && r.Start?
    ensures Advances(c, h, d, r)
  {
  }

  lemma ChunkAdvances(c: Session, h: Host, d: Device, r: Request)
    requires ValidSession(c) && DeviceOk(c, d) && RequestOk(c, h, d, r) && r.Chunk? && !d.mode.Idle?
    ensures Advances(c, h, d, r)
  {
    if d.mode.Receiving? && r.offset == d.received {
      WriteExtendsPrefix(c, d, r.bytes);
    }
  }

  lemma EndAdvances(c: Session, h: Host, d: Device, r: Request)
    requires ValidSession(c) && DeviceOk(c, d) && RequestOk(c, h, d, r) && (r.End? || r.Verify?) && !d.mode.Idle?
    ensures Advances(c, h, d, r)
  {
    if d.mode.Receiving? && d.received == d.total {
      WholePrefix(c, d);
    }
  }

  lemma DeviceStep(c: Session, s: System)
    requires ValidSession(c) && Ok(c, s)
    ensures Ok(c, Step(c, s, DeviceTakes))
  {
    if s.up != [] {
      var r := s.up[0];
      assert RequestOk(c, s.host, s.device, r);
      if r.Start? {
        StartAdvances(c, s.host, s.device, r);
      } else if r.Chunk? {
        ChunkAdvances(c, s.host, s.device, r);
      } else {
        EndAdvances(c, s.host, s.device, r);
      }
      Landing(c, s, Step(c, s, DeviceTakes));
    }
  }

  /** The rest of the system does not mind the device getting further. */
  lemma Landing(c: Session, s: System, t: System)
    requires ValidSession(c) && Ok(c, s) && s.up != [] && t == Step(c, s, DeviceTakes)
    requires Advances(c, s.host, s.device, s.up[0])
    ensures Ok(c, t)
  {
    forall i | 0 <= i < |t.up|
      ensures RequestOk(c, t.host, t.device, t.up[i])
    {
      assert RequestOk(c, s.host, s.device, s.up[i + 1]);
    }
    forall i | 0 <= i < |t.down|
      ensures ReplyOk(c, t.host, t.device, t.down[i])
    {
      assert i < |s.down| ==> ReplyOk(c, s.host, s.device, s.down[i]);
    }
  }

  // ---- the host -------------------------------------------------------------------------

  lemma ResponseKeeps(c: Session, s: System)
    requires ValidSession(c) && Ok(c, s)
    ensures Ok(c, Step(c, s, HostTakes))
  {
    if s.down != [] {
      var t := Step(c, s, HostTakes);
      assert ReplyOk(c, s.host, s.device, s.down[0]);
      forall i | 0 <= i < |t.up|
        ensures RequestOk(c, t.host, t.device, t.up[i])
      {
        assert RequestOk(c, s.host, s.device, s.up[i]);
      }
      forall i | 0 <= i < |t.down|
        ensures ReplyOk(c, t.host, t.device, t.down[i])
      {
        assert ReplyOk(c, s.host, s.device, s.down[i + 1]);
      }
    }
  }

  /** Everything one action keeps; a start is never sent twice. */
  predicate ActionOk(c: Session, h: Host, d: Device, a: Acted) {
    && HostOk(c, a.host, d)
    && |a.sent| <= 1
    && (forall i :: 0 <= i < |a.sent| ==> RequestOk(c, a.host, d, a.sent[i]))
    && (h.startPhase == Done ==> a.host.startPhase == Done)
    && (h.verifyPhase != Send ==> a.host.verifyPhase != Send)
  }

  lemma NextChunkOk(c: Session, h: Host, d: Device, offset: int)
    requires 0 <= offset <= |c.firmware| && h.startPhase == Done
    ensures RequestOk(c, h, d, NextChunk(c, offset)) && offset + |NextChunk(c, offset).bytes| <= |c.firmware|
  {
  }

  lemma RewoundOk(c: Session, h: Host, d: Device)
    requires HostOk(c, h, d)
    ensures HostOk(c, Rewound(h), d)
    ensures Rewound(h).startPhase == h.startPhase && Rewound(h).verifyPhase == h.verifyPhase
  {
  }

  lemma ChunksOk(c: Session, h: Host, d: Device)
    requires ValidSession(c) && DeviceOk(c, d) && HostOk(c, h, d) && h.startPhase == Done
    ensures ActionOk(c, h, d, SendChunks(c, h))
  {
    var g, a := Rewound(h), SendChunks(c, h);
    RewoundOk(c, h, d);
    if a.sent == [] {
      assert a.host == g;
    } else {
      NextChunkOk(c, a.host, d, g.offset);
      assert a.sent == [NextChunk(c, g.offset)];
      assert a.host == g.(offset := g.offset + |NextChunk(c, g.offset).bytes|);
    }
  }

  lemma EndOk(c: Session, h: Host, d: Device)
    requires ValidSession(c) && DeviceOk(c, d) && HostOk(c, h, d) && h.startPhase == Done
    ensures ActionOk(c, h, d, SendEnd(c, h))
    ensures SendEnd(c, h).status == Success ==> SendEnd(c, h).host.endPhase == Done
  {
  }

  lemma VerifyOk(c: Session, h: Host, d: Device)
    requires ValidSession(c) && DeviceOk(c, d) && HostOk(c, h, d) && h.startPhase == Done && h.endPhase == Done
    ensures ActionOk(c, h, d, SendVerify(h))
  {
  }

  lemma TickOk(c: Session, h: Host, d: Device)
    requires ValidSession(c) && DeviceOk(c, d) && HostOk(c, h, d) && h.startPhase == Done
    ensures ActionOk(c, h, d, Tick(c, h))
  {
    ChunksOk(c, h, d);
    var b := SendChunks(c, h);
    if b.status == Success {
      EndOk(c, b.host, d);
      var e := SendEnd(c, b.host);
      if e.status == Success {
        VerifyOk(c, e.host, d);
      }
    }
  }

  lemma TickKeeps(c: Session, s: System)
    requires ValidSession(c) && Ok(c, s)
    ensures Ok(c, Step(c, s, HostTick))
  {
    var t := Step(c, s, HostTick);
    if s.host.startPhase == Done {
      TickOk(c, s.host, s.device);
      TrafficKept(c, s, t, Tick(c, s.host));
    } else if s.host.startPhase == Wait && s.host.ackReceived && s.host.lastOk {
      var h := s.host.(startPhase := Done);
      TickOk(c, h, s.device);
      TrafficKept(c, s.(host := h), t, Tick(c, h));
    }
  }

  lemma TrafficKept(c: Session, s: System, t: System, a: Acted)
    requires ValidSession(c) && Ok(c, s) && s.host.startPhase == Done && ActionOk(c, s.host, s.device, a)
    requires t == s.(host := a.host, up := s.up + a.sent)
    ensures Ok(c, t)
  {
    forall i | 0 <= i < |t.up|
      ensures RequestOk(c, t.host, t.device, t.up[i])
    {
      assert i < |s.up| ==> RequestOk(c, s.host, s.device, s.up[i]);
      assert i >= |s.up| ==> RequestOk(c, a.host, s.device, a.sent[i - |s.up|]);
    }
    forall i | 0 <= i < |t.down|
      ensures ReplyOk(c, t.host, t.device, t.down[i])
    {
      assert ReplyOk(c, s.host, s.device, s.down[i]);
    }
  }

  // ---- whole runs -----------------------------------------------------------------------

  lemma StepOk(c: Session, s: System, l: Label)
    requires ValidSession(c) && Ok(c, s)
    ensures Ok(c, Step(c, s, l))
  {
    match l
    case HostTick => TickKeeps(c, s);
    case DeviceTakes => DeviceStep(c, s);
    case HostTakes => ResponseKeeps(c, s);
    case LoseUp =>
    case LoseDown =>
  }

  lemma {:induction false} OkFrom(c: Session, s: System, schedule: seq<Label>)
    requires ValidSession(c) && Ok(c, s)
    ensures Ok(c, RunFrom(c, s, schedule))
    decreases |schedule|
  {
    if schedule != [] {
      StepOk(c, s, schedule[0]);
      OkFrom(c, Step(c, s, schedule[0]), schedule[1..]);
    }
  }

  /** At every point of every run, once the start has arrived, what has been received is in the
      flash; entering Verifying means the whole image is there and its checksum matches. */
  lemma FlashHoldsPrefix(c: Session, flash: seq<Byte>, schedule: seq<Label>)
    requires ValidSession(c) && |flash| == c.flashSize
    ensures var d := RunFrom(c, Begin(flash), schedule).device;
            && (!d.mode.Idle? ==>
                  && 0 <= d.received <= |c.firmware| && |d.flash| == c.flashSize
                  && d.flash[c.start..c.start + d.received] == c.firmware[..d.received])
            && (d.mode.Verifying? || d.mode.Complete? ==>
                  && d.flash[c.start..c.start + |c.firmware|] == c.firmware
                  && d.computed == d.expected)
  {
    OkFrom(c, Begin(flash), schedule);
    var d := RunFrom(c, Begin(flash), schedule).device;
    if Landed(d) {
      WholePrefix(c, d);
    }
  }

  /** A host that has been told of a verification has been told of success, and the whole image is
      in the flash. */
  lemma VerifiedMeansWritten(c: Session, flash: seq<Byte>, schedule: seq<Label>)
    requires ValidSession(c) && |flash| == c.flashSize
    requires RunFrom(c, Begin(flash), schedule).host.verifyReceived
    ensures var s := RunFrom(c, Begin(flash), schedule);
            && s.host.verifyOk
            && |s.device.flash| == c.flashSize
            && s.device.flash[c.start..c.start + |c.firmware|] == c.firmware
  {
    OkFrom(c, Begin(flash), schedule);
    WholePrefix(c, RunFrom(c, Begin(flash), schedule).device);
  }
}
