/** The device object: the flash array, the session fields and the request handler, proved
    against the device of module Ota (examples/serial_ota/device.hpp). */
module OtaDevice {
  import opened Crc
  import opened Ota

  /** The simulated flash. */
  class Flash {
    const cells: array<Byte>
    const sector: nat

    ghost predicate Valid()
      reads this, cells
    {
      sector > 0
    }

    constructor (size: nat, sectorSize: nat)
      requires sectorSize > 0
      ensures Valid() && cells.Length == size && sector == sectorSize && fresh(cells)
      ensures forall i :: 0 <= i < size ==> cells[i] == 0xFF
    {
      cells := new Byte[size](_ => 0xFF);
      sector := sectorSize;
    }

    method Write(addr: nat, bytes: seq<Byte>) returns (ok: bool)
      modifies cells
      ensures ok <==> addr + |bytes| <= cells.Length
      ensures cells[..] == Written(old(cells[..]), addr, bytes)
    {
      if addr + |bytes| > cells.Length {
        return false;
      }
      var i := 0;
      while i < |bytes|
        invariant 0 <= i <= |bytes|
        invariant cells[..addr] == old(cells[..])[..addr]
        invariant cells[addr..addr + i] == bytes[..i]
        invariant cells[addr + |bytes|..] == old(cells[..])[addr + |bytes|..]
      {
        cells[addr + i] := bytes[i];
        i := i + 1;
      }
      assert cells[..] == cells[..addr] + cells[addr..addr + i] + cells[addr + i..];
      return true;
    }

    method EraseSector(addr: nat) returns (ok: bool)
      requires Valid()
      modifies cells
      ensures ok <==> SectorStart(sector, addr) + sector <= cells.Length
      ensures cells[..] == ErasedSector(sector, old(cells[..]), addr)
    {
      var ones := seq(sector, _ => 0xFF);
      ok := Write(addr - addr % sector, ones);
    }

    /** Erase every sector of the range, stopping at the first failure. */
    method EraseRange(addr: nat, end: nat) returns (ok: bool)
      requires Valid()
      modifies cells
      ensures (cells[..], ok) == Erased(sector, old(cells[..]), addr, end)
    {
      var a := addr;
      while a < end
        invariant Erased(sector, cells[..], a, end) == Erased(sector, old(cells[..]), addr, end)
      {
        ok := EraseSector(a);
        if !ok {
          return false;
        }
        a := a + sector;
      }
      return true;
    }

    method Checksum(table: array<Bits>, addr: nat, length: nat) returns (crc: int)
      requires IsTable(table[..])
      ensures crc == FlashCrc(cells[..], addr, length)
    {
      if addr + length > cells.Length {
        return 0;
      }
      crc := CalcCrc16(table, cells[addr..addr + length]);
      assert cells[addr..addr + length] == cells[..][addr..addr + length];
    }
  }

  class DeviceHandler {
    const table: array<Bits>
    const flash: Flash
    var mode: Mode
    var total: nat
    var start: nat
    var received: nat
    var expected: int
    var computed: int

    ghost predicate Valid()
      reads this, table, flash, flash.cells
    {
      IsTable(table[..]) && flash.Valid()
    }

    ghost function View(): Device
      reads this, flash, flash.cells
    {
      Device(mode, flash.cells[..], total, start, received, expected, computed)
    }

    constructor (crcTable: array<Bits>, memory: Flash)
      requires IsTable(crcTable[..]) && memory.Valid()
      ensures Valid() && table == crcTable && flash == memory
      ensures View() == Device(Idle, memory.cells[..], 0, 0, 0, 0, 0)
    {
      table, flash := crcTable, memory;
      mode, total, start, received, expected, computed := Idle, 0, 0, 0, 0, 0;
    }

    method HandleStart(size: nat, addr: nat, crc: int)
      requires Valid()
      modifies this, flash.cells
      ensures Valid() && View() == OnStart(flash.sector, old(View()), size, addr, crc)
    {
      if mode == Idle {
        total, start, expected, received, computed := size, addr, crc, 0, 0;
        var ok := flash.EraseRange(start, start + total);
        mode := if ok then Receiving else Error;
      }
    }

    method HandleChunk(offset: nat, bytes: seq<Byte>)
      requires Valid() && offset == received
      modifies this, flash.cells
      ensures Valid() && View() == OnChunk(old(View()), offset, bytes)
    {
      if mode == Receiving {
        var ok := flash.Write(start + offset, bytes);
        if ok {
          received := received + |bytes|;
        } else {
          mode := Error;
        }
      }
    }

    method HandleEnd()
      requires Valid()
      modifies this
      ensures Valid() && View() == OnEnd(old(View()))
    {
      if mode == Receiving {
        computed := flash.Checksum(table, start, total);
        mode := Verifying;
      }
    }

    method HandleVerify()
      requires Valid()
      modifies this
      ensures Valid() && View() == OnVerify(old(View()))
    {
      if mode == Verifying {
        mode := if computed == expected then Complete else Error;
      }
    }

    /** One OTA request and its answer. The numbers of a request are unsigned on the wire. */
    method HandleOta(r: Request) returns (reply: Reply)
      requires Valid()
      requires r.Start? ==> r.total >= 0 && r.start >= 0
      requires r.Chunk? ==> r.offset >= 0
      modifies this, flash.cells
      ensures Valid() && View() == Handled(flash.sector, old(View()), r)
      ensures reply == Answer(old(View()), r, View())
    {
      match r
      case Start(size, addr, crc) =>
        HandleStart(size, addr, crc);
        reply := StartAck(true, received);
      case Chunk(offset, bytes) =>
        if offset != received {
          reply := ChunkAck(false, received);
        } else {
          HandleChunk(offset, bytes);
          reply := ChunkAck(true, received);
        }
      case End =>
        if received != total {
          reply := EndAck(false, received);
        } else {
          HandleEnd();
          reply := EndAck(true, received);
        }
      case Verify =>
        HandleVerify();
        reply := VerifyReply(computed == expected, computed);
    }
  }
}
