/** The host object and the device object together: a whole session on the real flash array. */
module OtaSession {
  import opened Crc
  import opened Ota
  import opened OtaSafety
  import opened OtaProgress
  import opened OtaDevice
  import opened OtaHost

  /** The two objects and the channel between them, as a state of the protocol. */
  ghost function SystemOf(host: Upgrade, device: DeviceHandler, up: seq<Request>, down: seq<Reply>): System
    reads host, device, device.flash, device.flash.cells
  {
    System(host.View(), device.View(), up, down)
  }

  lemma RunSnoc(c: Session, s: System, schedule: seq<Label>, i: nat)
    requires c.sector > 0 && i < |schedule|
    ensures RunFrom(c, s, schedule[..i + 1]) == Step(c, RunFrom(c, s, schedule[..i]), schedule[i])
  {
    assert schedule[..i + 1] == schedule[..i] + [schedule[i]];
    RunConcat(c, s, schedule[..i], [schedule[i]]);
  }

  /** One step of the session. */
  method Advance(host: Upgrade, device: DeviceHandler, up: seq<Request>, down: seq<Reply>, l: Label)
    returns (up': seq<Request>, down': seq<Reply>)
    requires host.Valid() && device.Valid()
    requires device.flash.sector == host.session.sector
    requires Ok(host.session, SystemOf(host, device, up, down))
    modifies host, device, device.flash.cells
    ensures host.Valid() && device.Valid()
    ensures SystemOf(host, device, up', down') == Step(host.session, old(SystemOf(host, device, up, down)), l)
  {
    up', down' := up, down;
    match l
    case HostTick =>
      var sent, status := host.TickOnce();
      up' := up + sent;
    case DeviceTakes =>
      if up != [] {
        assert RequestOk(host.session, host.View(), device.View(), up[0]);
        var reply := device.HandleOta(up[0]);
        up', down' := up[1..], down + [reply];
      }
    case HostTakes =>
      if down != [] {
        assert ReplyOk(host.session, host.View(), device.View(), down[0]);
        host.Respond(down[0]);
        down' := down[1..];
      }
    case LoseUp =>
      if up != [] {
        up' := up[1..];
      }
    case LoseDown =>
      if down != [] {
        down' := down[1..];
      }
  }

  /** A session between a fresh host and an idle device, in which ticks, deliveries and losses come
      in any order: at its end the flash array holds the received prefix of the firmware, and if a
      verification has come back it was a success and the array holds the whole image. */
  method RunSession(host: Upgrade, device: DeviceHandler, schedule: seq<Label>)
    requires host.Valid() && host.View() == FRESH_HOST && ValidSession(host.session)
    requires device.Valid() && device.View() == Begin(device.flash.cells[..]).device
    requires device.flash.sector == host.session.sector && device.flash.cells.Length == host.session.flashSize
    modifies host, device, device.flash.cells
    ensures device.mode != Idle ==>
              && device.received <= |host.session.firmware|
              && device.flash.cells[host.session.start..host.session.start + device.received]
                 == host.session.firmware[..device.received]
    ensures host.verifyReceived ==>
              && host.verifyOk
              && device.flash.cells[host.session.start..host.session.start + |host.session.firmware|]
                 == host.session.firmware
  {
    var up: seq<Request>, down: seq<Reply> := [], [];
    var i := 0;
    ghost var c, begin := host.session, Begin(device.flash.cells[..]);
    while i < |schedule|
      invariant 0 <= i <= |schedule|
      invariant host.Valid() && device.Valid()
      invariant SystemOf(host, device, up, down) == RunFrom(c, begin, schedule[..i])
    {
      OkFrom(c, begin, schedule[..i]);
      RunSnoc(c, begin, schedule, i);
      up, down := Advance(host, device, up, down, schedule[i]);
      i := i + 1;
    }
    assert schedule[..i] == schedule;
    FlashHoldsPrefix(c, begin.device.flash, schedule);
    if host.verifyReceived {
      VerifiedMeansWritten(c, begin.device.flash, schedule);
    }
    assert device.flash.cells[..] == RunFrom(c, begin, schedule).device.flash;
  }
}
