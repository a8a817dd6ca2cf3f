/** Over a channel that loses nothing a transfer cannot go wrong: no chunk is rejected, no action
    fails, and every schedule in which both sides keep getting their turns completes. */
module OtaProgress {
  import opened Crc
  import opened Ota
  import opened OtaSafety
  import opened OtaErase

  /** On top of a valid session: chunks are not empty and the flash is made of whole sectors. */
  predicate Feasible(c: Session) {
    ValidSession(c) && c.chunkSize > 0 && c.flashSize % c.sector == 0
  }

  predicate Lossless(schedule: seq<Label>) {
    forall i :: 0 <= i < |schedule| ==> !schedule[i].LoseUp? && !schedule[i].LoseDown?
  }

  lemma {:induction false} RunConcat(c: Session, s: System, a: seq<Label>, b: seq<Label>)
    requires c.sector > 0
    ensures RunFrom(c, s, a + b) == RunFrom(c, RunFrom(c, s, a), b)
    decreases |a|
  {
    if a == [] {
      assert a + b == b;
    } else {
      assert (a + b)[1..] == a[1..] + b;
      RunConcat(c, Step(c, s, a[0]), a[1..], b);
    }
  }

  // ---- the stages of a smooth transfer --------------------------------------------------

  /** The requests are consecutive, nonempty chunks that lead from one offset to the other. */
  predicate Chain(up: seq<Request>, from: int, end: int) {
    if up == [] then from == end
    else up[0].Chunk? && up[0].offset == from && |up[0].bytes| > 0 && Chain(up[1..], from + |up[0].bytes|, end)
  }

  lemma {:induction false} ChainSnoc(up: seq<Request>, from: int, end: int, bytes: seq<Byte>)
    requires Chain(up, from, end) && |bytes| > 0
    ensures Chain(up + [Chunk(end, bytes)], from, end + |bytes|)
    decreases |up|
  {
    if up == [] {
      assert (up + [Chunk(end, bytes)])[1..] == [];
    } else {
      assert (up + [Chunk(end, bytes)])[1..] == up[1..] + [Chunk(end, bytes)];
      ChainSnoc(up[1..], from + |up[0].bytes|, end, bytes);
    }
  }

  /** Every reply accepts a chunk. */
  predicate AllAccepted(down: seq<Reply>) {
    forall i :: 0 <= i < |down| ==> down[i].ChunkAck? && down[i].ok
  }

  /** Host phases, and nothing rejected so far. */
  predicate Phases(h: Host, start: Phase, end: Phase, verify: Phase) {
    h.startPhase == start && h.endPhase == end && h.verifyPhase == verify && !h.nak
  }

  predicate Starting(c: Session, s: System) {
    var h, d := s.host, s.device;
    && h.endPhase == Send && h.verifyPhase == Send && !h.nak && !h.verifyReceived && h.offset == 0
    && match h.startPhase
       case Send => s.up == [] && s.down == [] && d.mode.Idle?
       case Wait =>
         if h.ackReceived then h.lastOk && s.up == [] && s.down == [] && d.mode.Receiving? && d.received == 0
         else
           || (|s.up| == 1 && s.up[0].Start? && s.down == [] && d.mode.Idle?)
           || (s.up == [] && s.down == [StartAck(true, 0)] && d.mode.Receiving? && d.received == 0)
       case Done => false
  }

  predicate Sending(c: Session, s: System) {
    && Phases(s.host, Done, Send, Send) && !s.host.verifyReceived && s.device.mode.Receiving?
    && Chain(s.up, s.device.received, s.host.offset) && AllAccepted(s.down)
  }

  predicate Ending(c: Session, s: System) {
    && Phases(s.host, Done, Wait, Send) && !s.host.verifyReceived && s.host.offset == |c.firmware|
    && (if s.host.ackReceived then s.host.lastOk && s.up == [] && s.down == [] && s.device.mode.Verifying?
        else
          || (&& s.device.mode.Receiving? && AllAccepted(s.down)
              && |s.up| > 0 && s.up[|s.up| - 1].End? && Chain(s.up[..|s.up| - 1], s.device.received, |c.firmware|))
          || (&& s.device.mode.Verifying? && s.up == []
              && |s.down| > 0 && s.down[|s.down| - 1].EndAck? && s.down[|s.down| - 1].ok
              && AllAccepted(s.down[..|s.down| - 1])))
  }

  predicate Checking(c: Session, s: System) {
    && s.host.startPhase == Done && s.host.endPhase == Done && s.host.verifyPhase != Send && !s.host.nak
    && s.host.offset == |c.firmware|
    && (if s.host.verifyReceived then s.up == [] && s.down == [] && s.host.verifyOk && s.device.mode.Complete?
        else
          && s.host.verifyPhase == Wait
          && (|| (s.up == [Verify] && s.down == [] && s.device.mode.Verifying?)
              || (s.up == [] && |s.down| == 1 && s.down[0].VerifyReply? && s.down[0].ok && s.device.mode.Complete?)))
  }

  predicate Smooth(c: Session, s: System) {
    Starting(c, s) || Sending(c, s) || Ending(c, s) || Checking(c, s)
  }

  // ---- the work that is left ------------------------------------------------------------

  function PhaseWork(p: Phase): nat {
    match p
    case Send => 5
    case Wait => 1
    case Done => 0
  }

  /** Every step that changes anything takes some of it away. */
  function Work(c: Session, s: System): int {
    PhaseWork(s.host.startPhase) + PhaseWork(s.host.endPhase) + PhaseWork(s.host.verifyPhase)
    + 3 * (|c.firmware| - s.host.offset) + 2 * |s.up| + |s.down|
  }

  /** The step keeps the transfer smooth and does nothing or some of the work. */
  predicate Onward(c: Session, s: System, z: System) {
    Smooth(c, z) && (z == s || Work(c, z) < Work(c, s))
  }

  // ---- the host's turn ------------------------------------------------------------------

  /** The tick with the host's new state and what it sends. */
  function Ticked(s: System, a: Acted): System {
    s.(host := a.host, up := s.up + a.sent)
  }

  lemma StartingTick(c: Session, s: System)
    requires Feasible(c) && Starting(c, s)
    ensures Onward(c, s, Ticked(s, Tick(c, s.host))) && Tick(c, s.host).status != Failure
  {
    var a := Tick(c, s.host);
    if s.host.startPhase == Wait && s.host.ackReceived {
      var chunk := NextChunk(c, 0);
      assert a == Acted(s.host.(startPhase := Done, offset := |chunk.bytes|), [chunk], Running);
      assert (s.up + [chunk])[1..] == [];
      assert Sending(c, Ticked(s, a));
    }
  }

  lemma SendingTick(c: Session, s: System)
    requires Feasible(c) && Sending(c, s) && 0 <= s.host.offset <= |c.firmware|
    ensures Onward(c, s, Ticked(s, Tick(c, s.host))) && Tick(c, s.host).status != Failure
  {
    var h, a := s.host, Tick(c, s.host);
    if h.offset < |c.firmware| {
      var chunk := NextChunk(c, h.offset);
      assert a == Acted(h.(offset := h.offset + |chunk.bytes|), [chunk], Running);
      ChainSnoc(s.up, s.device.received, h.offset, chunk.bytes);
      assert Sending(c, Ticked(s, a));
    } else {
      assert a == Acted(h.(ackReceived := false, endPhase := Wait), [End], Running);
      assert (s.up + [End])[..|s.up|] == s.up;
      assert Ending(c, Ticked(s, a));
    }
  }

  lemma EndingTick(c: Session, s: System)
    requires Ending(c, s)
    ensures Onward(c, s, Ticked(s, Tick(c, s.host))) && Tick(c, s.host).status != Failure
  {
    var h, a := s.host, Tick(c, s.host);
    if h.ackReceived {
      assert a == Acted(h.(endPhase := Done, verifyReceived := false, verifyOk := false, verifyPhase := Wait), [Verify], Running);
      assert Checking(c, Ticked(s, a));
    } else {
      assert a == Acted(h, [], Running);
      assert s.up + [] == s.up;
    }
  }

  lemma CheckingTick(c: Session, s: System)
    requires Checking(c, s)
    ensures Onward(c, s, Ticked(s, Tick(c, s.host))) && Tick(c, s.host).status != Failure
  {
    var a := Tick(c, s.host);
    assert a.sent == [] && s.up + [] == s.up;
    assert Checking(c, Ticked(s, a));
  }

  lemma TickOnward(c: Session, s: System)
    requires Feasible(c) && Smooth(c, s) && 0 <= s.host.offset <= |c.firmware|
    ensures Onward(c, s, Step(c, s, HostTick)) && Tick(c, s.host).status != Failure
  {
    if Starting(c, s) {
      StartingTick(c, s);
    } else if Sending(c, s) {
      SendingTick(c, s);
    } else if Ending(c, s) {
      EndingTick(c, s);
    } else {
      CheckingTick(c, s);
    }
  }

  // ---- the device's turn ----------------------------------------------------------------

  lemma StartingDevice(c: Session, s: System)
    requires Feasible(c) && Ok(c, s) && Starting(c, s) && s.up != []
    ensures Onward(c, s, Step(c, s, DeviceTakes))
  {
    assert RequestOk(c, s.host, s.device, s.up[0]);
    EraseSucceeds(c.sector, s.device.flash, c.start, c.start + |c.firmware|);
    var z := Step(c, s, DeviceTakes);
    assert z.down == [StartAck(true, 0)] && z.device.mode.Receiving? && z.device.received == 0;
    assert Starting(c, z);
  }

  /** The next chunk of a chain is accepted. */
  lemma ChunkAccepted(c: Session, s: System)
    requires Feasible(c) && Ok(c, s) && s.up != [] && s.up[0].Chunk?
    requires s.device.mode.Receiving? && s.up[0].offset == s.device.received
    ensures var z := Step(c, s, DeviceTakes);
            && z.device.mode.Receiving? && z.device.received == s.device.received + |s.up[0].bytes|
            && z.down == s.down + [ChunkAck(true, z.device.received)] && z.up == s.up[1..] && z.host == s.host
  {
    assert RequestOk(c, s.host, s.device, s.up[0]);
  }

  lemma SendingDevice(c: Session, s: System)
    requires Feasible(c) && Ok(c, s) && Sending(c, s) && s.up != []
    ensures Onward(c, s, Step(c, s, DeviceTakes))
  {
    ChunkAccepted(c, s);
    assert Sending(c, Step(c, s, DeviceTakes));
  }

  lemma EndingDevice(c: Session, s: System)
    requires Feasible(c) && Ok(c, s) && Ending(c, s) && s.up != []
    ensures Onward(c, s, Step(c, s, DeviceTakes))
  {
    var n := |s.up| - 1;
    var z := Step(c, s, DeviceTakes);
    if n > 0 {
      assert s.up[..n][0] == s.up[0] && s.up[..n][1..] == s.up[1..][..n - 1];
      ChunkAccepted(c, s);
      assert z.up[|z.up| - 1] == s.up[n];
      assert Ending(c, z);
    } else {
      assert s.up[..0] == [];
      assert z.down[..|s.down|] == s.down;
      assert Ending(c, z);
    }
  }

  lemma DeviceOnward(c: Session, s: System)
    requires Feasible(c) && Ok(c, s) && Smooth(c, s)
    ensures Onward(c, s, Step(c, s, DeviceTakes))
  {
    if s.up != [] {
      if Starting(c, s) {
        StartingDevice(c, s);
      } else if Sending(c, s) {
        SendingDevice(c, s);
      } else if Ending(c, s) {
        EndingDevice(c, s);
      } else {
        assert Checking(c, Step(c, s, DeviceTakes));
      }
    }
  }

  // ---- the host's replies ---------------------------------------------------------------

  lemma EndingReply(c: Session, s: System)
    requires Ending(c, s) && s.down != []
    ensures Onward(c, s, s.(host := OnResponse(s.host, s.down[0]), down := s.down[1..]))
  {
    var z := s.(host := OnResponse(s.host, s.down[0]), down := s.down[1..]);
    var n := |s.down| - 1;
    if s.device.mode.Verifying? && n > 0 {
      assert s.down[..n][0] == s.down[0];
      assert z.down[..n - 1] == s.down[..n][1..] && z.down[n - 1] == s.down[n];
    }
    assert Ending(c, z);
  }

  lemma ReplyOnward(c: Session, s: System)
    requires Smooth(c, s)
    ensures c.sector > 0 ==> Onward(c, s, Step(c, s, HostTakes))
  {
    if s.down != [] && c.sector > 0 {
      var z := Step(c, s, HostTakes);
      if Starting(c, s) {
        assert Starting(c, z);
      } else if Sending(c, s) {
        assert Sending(c, z);
      } else if Ending(c, s) {
        EndingReply(c, s);
      } else {
        assert Checking(c, z);
      }
    }
  }

  // ---- whole schedules ------------------------------------------------------------------

  lemma StepOnward(c: Session, s: System, l: Label)
    requires Feasible(c) && Ok(c, s) && Smooth(c, s) && !l.LoseUp? && !l.LoseDown?
    ensures Ok(c, Step(c, s, l)) && Onward(c, s, Step(c, s, l))
  {
    StepOk(c, s, l);
    match l
    case HostTick => TickOnward(c, s);
    case DeviceTakes => DeviceOnward(c, s);
    case HostTakes => ReplyOnward(c, s);
  }

  lemma {:induction false} SmoothFrom(c: Session, s: System, schedule: seq<Label>)
    requires Feasible(c) && Ok(c, s) && Smooth(c, s) && Lossless(schedule)
    ensures Ok(c, RunFrom(c, s, schedule)) && Onward(c, s, RunFrom(c, s, schedule))
    decreases |schedule|
  {
    if schedule != [] {
      StepOnward(c, s, schedule[0]);
      SmoothFrom(c, Step(c, s, schedule[0]), schedule[1..]);
    }
  }

  /** Along every schedule without losses no chunk, end or start is ever rejected, and no tick of
      the host fails. */
  lemma NothingGoesWrong(c: Session, flash: seq<Byte>, schedule: seq<Label>)
    requires Feasible(c) && |flash| == c.flashSize && Lossless(schedule)
    ensures var s := RunFrom(c, Begin(flash), schedule);
            && (forall i :: 0 <= i < |s.down| ==> s.down[i].ok)
            && Tick(c, s.host).status != Failure
  {
    SmoothFrom(c, Begin(flash), schedule);
    TickOnward(c, RunFrom(c, Begin(flash), schedule));
    assert forall i :: 0 <= i < |RunFrom(c, Begin(flash), schedule).down| ==>
        RunFrom(c, Begin(flash), schedule).down[i].ok by {
      RepliesOk(c, RunFrom(c, Begin(flash), schedule));
    }
  }

  lemma RepliesOk(c: Session, s: System)
    requires Smooth(c, s)
    ensures forall i :: 0 <= i < |s.down| ==> s.down[i].ok
  {
    if Ending(c, s) && !s.host.ackReceived && s.device.mode.Verifying? {
      var n := |s.down| - 1;
      forall i | 0 <= i < |s.down| ensures s.down[i].ok {
        assert i < n ==> s.down[..n][i] == s.down[i];
      }
    }
  }

  /** Somebody's turn changes something until the verification is back. */
  lemma SomebodyMoves(c: Session, s: System) returns (l: Label)
    requires Feasible(c) && Ok(c, s) && Smooth(c, s) && !s.host.verifyReceived
    ensures !l.LoseUp? && !l.LoseDown? && Step(c, s, l) != s
  {
    if s.up != [] {
      l := DeviceTakes;
      assert |Step(c, s, l).up| < |s.up|;
    } else if s.down != [] {
      l := HostTakes;
      assert |Step(c, s, l).down| < |s.down|;
    } else {
      l := HostTick;
      assert Tick(c, s.host).sent != [];
    }
  }

  /** A block of steps that gives the moving side its turn does some of the work. */
  lemma {:induction false} BlockWorks(c: Session, s: System, block: seq<Label>, l: Label)
    requires Feasible(c) && Ok(c, s) && Smooth(c, s) && Lossless(block)
    requires l in block && Step(c, s, l) != s
    ensures Work(c, RunFrom(c, s, block)) < Work(c, s)
    decreases |block|
  {
    var z := Step(c, s, block[0]);
    StepOnward(c, s, block[0]);
    if z == s {
      BlockWorks(c, s, block[1..], l);
    } else {
      SmoothFrom(c, z, block[1..]);
    }
  }

  /** Both sides get each of their turns. */
  predicate Round(block: seq<Label>) {
    Lossless(block) && HostTick in block && DeviceTakes in block && HostTakes in block
  }

  function Flat(blocks: seq<seq<Label>>): seq<Label>
    decreases |blocks|
  {
    if blocks == [] then [] else blocks[0] + Flat(blocks[1..])
  }

  lemma {:induction false} VerificationStays(c: Session, s: System, schedule: seq<Label>)
    requires Feasible(c) && Ok(c, s) && Smooth(c, s) && Lossless(schedule) && s.host.verifyReceived
    ensures RunFrom(c, s, schedule).host.verifyReceived
    decreases |schedule|
  {
    if schedule != [] {
      StepOnward(c, s, schedule[0]);
      assert Step(c, s, schedule[0]).host.verifyReceived;
      VerificationStays(c, Step(c, s, schedule[0]), schedule[1..]);
    }
  }

  lemma {:induction false} RoundsComplete(c: Session, s: System, blocks: seq<seq<Label>>)
    requires Feasible(c) && Ok(c, s) && Smooth(c, s)
    requires forall i :: 0 <= i < |blocks| ==> Round(blocks[i])
    requires |blocks| >= Work(c, s)
    ensures RunFrom(c, s, Flat(blocks)).host.verifyReceived && Lossless(Flat(blocks))
    decreases |blocks|
  {
    FlatLossless(blocks);
    if s.host.verifyReceived {
      VerificationStays(c, s, Flat(blocks));
    } else {
      var l := SomebodyMoves(c, s);
      WorkLeft(c, s);
      BlockWorks(c, s, blocks[0], l);
      SmoothFrom(c, s, blocks[0]);
      RunConcat(c, s, blocks[0], Flat(blocks[1..]));
      RoundsComplete(c, RunFrom(c, s, blocks[0]), blocks[1..]);
    }
  }

  lemma WorkLeft(c: Session, s: System)
    requires HostOk(c, s.host, s.device) && Smooth(c, s) && !s.host.verifyReceived
    ensures Work(c, s) > 0
  {
  }

  lemma {:induction false} FlatLossless(blocks: seq<seq<Label>>)
    requires forall i :: 0 <= i < |blocks| ==> Round(blocks[i])
    ensures Lossless(Flat(blocks))
    decreases |blocks|
  {
    if blocks != [] {
      FlatLossless(blocks[1..]);
    }
  }

  /** Every schedule without losses in which both sides get all their turns three times per byte of
      the image, and a few times more, ends with a successful verification and the whole image in
      the flash. */
  lemma FairTransferCompletes(c: Session, flash: seq<Byte>, blocks: seq<seq<Label>>)
    requires Feasible(c) && |flash| == c.flashSize
    requires forall i :: 0 <= i < |blocks| ==> Round(blocks[i])
    requires |blocks| >= 3 * |c.firmware| + 15
    ensures var s := RunFrom(c, Begin(flash), Flat(blocks));
            && s.host.verifyReceived && s.host.verifyOk
            && |s.device.flash| == c.flashSize
            && s.device.flash[c.start..c.start + |c.firmware|] == c.firmware
  {
    RoundsComplete(c, Begin(flash), blocks);
    VerifiedMeansWritten(c, flash, Flat(blocks));
  }
}
