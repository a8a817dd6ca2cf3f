/** What the erase before a transfer erases: whole sectors, one per step of the loop, which for a
    start inside a sector may stop one sector short (examples/serial_ota/device.hpp). */
module OtaErase {
  import opened Crc
  import opened Ota

  lemma SectorFits(sector: nat, size: nat, addr: nat)
    requires sector > 0 && size % sector == 0 && addr < size
    ensures SectorStart(sector, addr) + sector <= size
  {
    var q, k := addr / sector, size / sector;
    assert addr == sector * q + addr % sector && size == sector * k;
    assert sector * (k - q) > 0;
    NoSmaller(sector, k - q);
    assert sector * (k - q) == sector * k - sector * q;
  }

  lemma NoSmaller(d: nat, k: int)
    requires d > 0 && d * k > 0
    ensures d * k >= d
  {
    assert k >= 1;
  }

  /** A flash of whole sectors can be erased wherever an image fits. */
  lemma {:induction false} EraseSucceeds(sector: nat, flash: seq<Byte>, addr: nat, end: nat)
    requires sector > 0 && |flash| % sector == 0 && end <= |flash|
    ensures Erased(sector, flash, addr, end).1
    decreases end - addr
  {
    if addr < end {
      SectorFits(sector, |flash|, addr);
      EraseSucceeds(sector, ErasedSector(sector, flash, addr), addr + sector, end);
    }
  }

  /** The steps of the loop over `length` bytes. */
  function Steps(sector: nat, length: int): nat
    requires sector > 0
    decreases if length > 0 then length else 0
  {
    if length <= 0 then 0 else 1 + Steps(sector, length - sector)
  }

  lemma {:induction false} StepsIsCeiling(sector: nat, length: nat)
    requires sector > 0
    ensures length <= sector * Steps(sector, length) < length + sector
    decreases length
  {
    if length > sector {
      StepsIsCeiling(sector, length - sector);
      assert sector * (1 + Steps(sector, length - sector)) == sector + sector * Steps(sector, length - sector);
    } else if length > 0 {
      assert Steps(sector, length - sector) == 0;
      assert sector * 1 == sector;
    }
  }

  lemma NextSector(sector: nat, addr: nat)
    requires sector > 0
    ensures SectorStart(sector, addr + sector) == SectorStart(sector, addr) + sector
  {
    var q, r := addr / sector, addr % sector;
    assert addr == sector * q + r;
    assert addr + sector == sector * (q + 1) + r;
    RemainderOf(sector, q + 1, r);
  }

  lemma RemainderOf(d: nat, q: nat, r: nat)
    requires r < d
    ensures (d * q + r) % d == r
  {
    var x := d * q + r;
    assert x == d * (x / d) + x % d;
    assert d * (x / d - q) == r - x % d;
    Apart(d, x / d - q);
  }

  lemma Apart(d: int, k: int)
    requires d > 0
    ensures k >= 1 ==> d * k >= d
    ensures k <= -1 ==> d * k <= -d
  {
  }

  /** A successful erase fills whole sectors from the one that holds the start, as many as the loop
      has steps, and touches nothing else. */
  lemma {:induction false} ErasedExactly(sector: nat, flash: seq<Byte>, addr: nat, end: nat, i: nat)
    requires sector > 0 && Erased(sector, flash, addr, end).1 && i < |flash|
    ensures var lo := SectorStart(sector, addr);
            Erased(sector, flash, addr, end).0[i] ==
            if lo <= i < lo + sector * Steps(sector, end - addr) then 0xFF else flash[i]
    decreases end - addr
  {
    if addr < end {
      var lo, n := SectorStart(sector, addr), Steps(sector, end - (addr + sector));
      var next := ErasedSector(sector, flash, addr);
      NextSector(sector, addr);
      ErasedExactly(sector, next, addr + sector, end, i);
      assert sector * (1 + n) == sector + sector * n;
      assert next[i] == if lo <= i < lo + sector then 0xFF else flash[i];
    }
  }

  /** After the erase every byte of the image's range is 0xFF. */
  predicate ErasesRange(sector: nat, flash: seq<Byte>, start: nat, total: nat)
    requires sector > 0 && start + total <= |flash|
  {
    var erased := Erased(sector, flash, start, start + total).0;
    forall i :: start <= i < start + total ==> erased[i] == 0xFF
  }

  /** The sectors the loop visits reach the end of the range. */
  predicate Reaches(sector: nat, start: nat, total: nat)
    requires sector > 0
  {
    start % sector + total <= sector * Steps(sector, total)
  }

  lemma ReachesErases(sector: nat, flash: seq<Byte>, start: nat, total: nat)
    requires sector > 0 && |flash| % sector == 0 && start + total <= |flash| && Reaches(sector, start, total)
    ensures ErasesRange(sector, flash, start, total)
  {
    EraseSucceeds(sector, flash, start, start + total);
    var erased := Erased(sector, flash, start, start + total).0;
    forall i: nat | start <= i < start + total ensures erased[i] == 0xFF {
      ErasedExactly(sector, flash, start, start + total, i);
    }
  }

  /** The first byte behind the visited sectors. */
  lemma ShortMisses(sector: nat, flash: seq<Byte>, start: nat, total: nat) returns (i: nat)
    requires sector > 0 && |flash| % sector == 0 && 0 < total && start + total <= |flash|
    requires !Reaches(sector, start, total)
    ensures start <= i < start + total && Erased(sector, flash, start, start + total).0[i] == flash[i]
  {
    i := SectorStart(sector, start) + sector * Steps(sector, total);
    StepsIsCeiling(sector, total);
    Apart(sector, Steps(sector, total));
    EraseSucceeds(sector, flash, start, start + total);
    ErasedExactly(sector, flash, start, start + total, i);
  }

  function Zeros(n: nat): (bytes: seq<Byte>)
    ensures |bytes| == n && forall i :: 0 <= i < n ==> bytes[i] == 0
  {
    if n == 0 then [] else Zeros(n - 1) + [0]
  }

  /** The image's range is erased whatever the flash held, if and only if the sectors the loop
      visits reach its end. */
  lemma EraseCoversIff(sector: nat, size: nat, start: nat, total: nat)
    requires sector > 0 && size % sector == 0 && 0 < total && start + total <= size
    ensures (forall flash: seq<Byte> :: |flash| == size ==> ErasesRange(sector, flash, start, total)) <==>
              Reaches(sector, start, total)
  {
    if Reaches(sector, start, total) {
      forall flash: seq<Byte> | |flash| == size ensures ErasesRange(sector, flash, start, total) {
        ReachesErases(sector, flash, start, total);
      }
    } else {
      var flash := Zeros(size);
      var i := ShortMisses(sector, flash, start, total);
      assert Erased(sector, flash, start, start + total).0[i] != 0xFF;
      assert !ErasesRange(sector, flash, start, total);
    }
  }

  /** Sectors of four bytes, an image of four bytes at address 1: byte 4 is not erased. */
  lemma EraseMissesLastSector(flash: seq<Byte>)
    requires |flash| == 8
    ensures Erased(4, flash, 1, 5).1 && Erased(4, flash, 1, 5).0[4] == flash[4]
  {
    EraseSucceeds(4, flash, 1, 5);
    ErasedExactly(4, flash, 1, 5, 4);
    assert Steps(4, 4) == 1 + Steps(4, 0);
  }
}
