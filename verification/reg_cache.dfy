/** The shadow register cache: deferred writes, the sync that commits them, and the bypass guard
    (include/coact/reg_cache.hpp). */
module RegCache {
  import opened BitField

  const REGS: nat := 8

  /** Both copies of the registers, which of them wait for a sync, and the two modes. */
  datatype Cache = Cache(shadow: seq<Bits>, hardware: seq<Bits>, dirty: seq<bool>, cacheOnly: bool, bypass: bool)

  predicate Registers(rs: seq<Bits>) {
    |rs| == REGS && forall r :: 0 <= r < REGS ==> Word(rs[r])
  }

  predicate ValidCache(c: Cache) {
    Registers(c.shadow) && Registers(c.hardware) && |c.dirty| == REGS
  }

  /** A whole-word write or a write of one field. */
  datatype Op = Whole(reg: nat, val: Bits) | Part(reg: nat, f: Field, val: Bits)

  predicate ValidOp(op: Op) {
    op.reg < REGS && Word(op.val) && (op.Part? ==> ValidField(op.f))
  }

  /** What the write makes of a register. */
  function Landed(op: Op, was: Bits): (w: Bits)
    requires ValidOp(op) && Word(was)
    ensures Word(w)
  {
    if op.Whole? then op.val else Write(op.f, was, op.val)
  }

  /** The write of one register in a copy. */
  function Put(rs: seq<Bits>, op: Op): (s: seq<Bits>)
    requires Registers(rs) && ValidOp(op)
    ensures Registers(s)
  {
    rs[op.reg := Landed(op, rs[op.reg])]
  }

  /** The three-flag write protocol. */
  function Written(c: Cache, op: Op): (d: Cache)
    requires ValidCache(c) && ValidOp(op)
    ensures ValidCache(d) && d.cacheOnly == c.cacheOnly && d.bypass == c.bypass
  {
    if c.bypass then c.(hardware := Put(c.hardware, op))
    else if c.cacheOnly then c.(shadow := Put(c.shadow, op), dirty := c.dirty[op.reg := true])
    else c.(hardware := Put(c.hardware, op), shadow := Put(c.shadow, op))
  }

  function Synced(c: Cache): (d: Cache)
    requires ValidCache(c)
    ensures ValidCache(d)
  {
    if c.cacheOnly then c
    else
      c.(hardware := seq(REGS, r requires 0 <= r < REGS => if c.dirty[r] then c.shadow[r] else c.hardware[r]),
         dirty := seq(REGS, _ => false))
  }

  predicate ValidOps(ops: seq<Op>) {
    forall i :: 0 <= i < |ops| ==> ValidOp(ops[i])
  }

  function WrittenAll(c: Cache, ops: seq<Op>): (d: Cache)
    requires ValidCache(c) && ValidOps(ops)
    ensures ValidCache(d) && d.cacheOnly == c.cacheOnly && d.bypass == c.bypass
    decreases |ops|
  {
    if ops == [] then c else WrittenAll(Written(c, ops[0]), ops[1..])
  }

  // ---- deferring and syncing is writing through -----------------------------------------

  /** A deferring cache and a write-through cache that have seen the same writes. */
  predicate Alike(c: Cache, d: Cache) {
    && ValidCache(c) && ValidCache(d)
    && c.cacheOnly && !c.bypass && !d.cacheOnly && !d.bypass
    && c.shadow == d.shadow && d.shadow == d.hardware
    && forall r :: 0 <= r < REGS && !c.dirty[r] ==> c.shadow[r] == c.hardware[r]
  }

  lemma {:induction false} StayAlike(c: Cache, d: Cache, ops: seq<Op>)
    requires Alike(c, d) && ValidOps(ops)
    ensures Alike(WrittenAll(c, ops), WrittenAll(d, ops))
    ensures WrittenAll(c, ops).hardware == c.hardware
    decreases |ops|
  {
    if ops != [] {
      StayAlike(Written(c, ops[0]), Written(d, ops[0]), ops[1..]);
    }
  }

  /** From agreeing copies with nothing pending, writes under cache_only leave the hardware alone,
      and clearing the flag and syncing then gives both copies the values that the same writes
      give them write-through. */
  lemma DeferredIsWriteThrough(c: Cache, ops: seq<Op>)
    requires ValidCache(c) && ValidOps(ops)
    requires !c.cacheOnly && !c.bypass && c.shadow == c.hardware && forall r :: 0 <= r < REGS ==> !c.dirty[r]
    ensures var deferred := WrittenAll(c.(cacheOnly := true), ops);
            var through := WrittenAll(c, ops);
            && deferred.hardware == c.hardware
            && Synced(deferred.(cacheOnly := false)).hardware == through.hardware
            && Synced(deferred.(cacheOnly := false)).shadow == through.shadow
  {
    StayAlike(c.(cacheOnly := true), c, ops);
  }

  // ---- bypass only through the guard ----------------------------------------------------

  datatype Step = Do(op: Op) | SetCacheOnly(on: bool) | Sync | Repush | EnterGuard | LeaveGuard

  predicate ValidStep(s: Step) {
    s.Do? ==> ValidOp(s.op)
  }

  /** Leaving the guard pulls the hardware values into the shadow. */
  function Stepped(c: Cache, s: Step): (d: Cache)
    requires ValidCache(c) && ValidStep(s)
    ensures ValidCache(d)
  {
    match s
    case Do(op) => Written(c, op)
    case SetCacheOnly(on) => c.(cacheOnly := on)
    case Sync => Synced(c)
    case Repush => c.(hardware := c.shadow)
    case EnterGuard => c.(bypass := true)
    case LeaveGuard => c.(bypass := false, shadow := c.hardware)
  }

  function SteppedAll(c: Cache, steps: seq<Step>): (d: Cache)
    requires ValidCache(c) && forall i :: 0 <= i < |steps| ==> ValidStep(steps[i])
    ensures ValidCache(d)
    decreases |steps|
  {
    if steps == [] then c else SteppedAll(Stepped(c, steps[0]), steps[1..])
  }

  /** Outside a bypass window the copies differ only where a write waits for a sync. */
  predicate DriftOnlyDirty(c: Cache)
    requires ValidCache(c)
  {
    !c.bypass ==> forall r :: 0 <= r < REGS && c.shadow[r] != c.hardware[r] ==> c.dirty[r]
  }

  lemma {:induction false} GuardedNeverDrifts(c: Cache, steps: seq<Step>)
    requires ValidCache(c) && DriftOnlyDirty(c) && forall i :: 0 <= i < |steps| ==> ValidStep(steps[i])
    ensures DriftOnlyDirty(SteppedAll(c, steps))
    decreases |steps|
  {
    if steps != [] {
      GuardedNeverDrifts(Stepped(c, steps[0]), steps[1..]);
    }
  }

  // ---- a bypass window between the deferred writes and the sync -------------------------

  /** Enter the guard, write, leave the guard. */
  function Windowed(c: Cache, inside: seq<Op>): (d: Cache)
    requires ValidCache(c) && ValidOps(inside)
    ensures ValidCache(d)
  {
    Stepped(WrittenAll(Stepped(c, EnterGuard), inside), LeaveGuard)
  }

  /** What the writes to register r make of a value of it. */
  function Folded(ops: seq<Op>, r: nat, w: Bits): (v: Bits)
    requires ValidOps(ops) && Word(w)
    ensures Word(v)
    decreases |ops|
  {
    if ops == [] then w else Folded(ops[1..], r, if ops[0].reg == r then Landed(ops[0], w) else w)
  }

  lemma {:induction false} FoldedConcat(a: seq<Op>, b: seq<Op>, r: nat, w: Bits)
    requires ValidOps(a) && ValidOps(b) && Word(w)
    ensures ValidOps(a + b) && Folded(a + b, r, w) == Folded(b, r, Folded(a, r, w))
    decreases |a|
  {
    if a == [] {
      assert a + b == b;
    } else {
      assert (a + b)[1..] == a[1..] + b;
      FoldedConcat(a[1..], b, r, if a[0].reg == r then Landed(a[0], w) else w);
    }
  }

  /** Bypassing writes reach the hardware alone. */
  lemma {:induction false} BypassFolds(c: Cache, ops: seq<Op>, r: nat)
    requires ValidCache(c) && ValidOps(ops) && c.bypass && r < REGS
    ensures WrittenAll(c, ops).hardware[r] == Folded(ops, r, c.hardware[r])
    ensures WrittenAll(c, ops).shadow == c.shadow && WrittenAll(c, ops).dirty == c.dirty
    decreases |ops|
  {
    if ops != [] {
      BypassFolds(Written(c, ops[0]), ops[1..], r);
    }
  }

  /** Deferred writes reach the shadow alone. */
  lemma {:induction false} DeferFolds(c: Cache, ops: seq<Op>, r: nat)
    requires ValidCache(c) && ValidOps(ops) && c.cacheOnly && !c.bypass && r < REGS
    ensures WrittenAll(c, ops).shadow[r] == Folded(ops, r, c.shadow[r])
    ensures WrittenAll(c, ops).hardware == c.hardware
    decreases |ops|
  {
    if ops != [] {
      DeferFolds(Written(c, ops[0]), ops[1..], r);
    }
  }

  lemma {:induction false} ThroughFolds(c: Cache, ops: seq<Op>, r: nat)
    requires ValidCache(c) && ValidOps(ops) && !c.cacheOnly && !c.bypass && r < REGS
    ensures WrittenAll(c, ops).shadow[r] == Folded(ops, r, c.shadow[r])
    ensures WrittenAll(c, ops).hardware[r] == Folded(ops, r, c.hardware[r])
    decreases |ops|
  {
    if ops != [] {
      ThroughFolds(Written(c, ops[0]), ops[1..], r);
    }
  }

  /** Agreeing copies with nothing pending, in write-through mode. */
  predicate Settled(c: Cache) {
    && ValidCache(c) && !c.cacheOnly && !c.bypass && c.shadow == c.hardware
    && forall r :: 0 <= r < REGS ==> !c.dirty[r]
  }

  /** The cache after deferring `before` and clearing the flag. */
  function Deferred(c: Cache, before: seq<Op>): (d: Cache)
    requires Settled(c) && ValidOps(before)
    ensures ValidCache(d) && !d.cacheOnly
  {
    WrittenAll(c.(cacheOnly := true), before).(cacheOnly := false)
  }

  /** The window's own writes make the same of the pending and of the stored value of r. */
  predicate Overrides(d: Cache, inside: seq<Op>, r: nat)
    requires ValidCache(d) && ValidOps(inside) && r < REGS
  {
    Folded(inside, r, d.shadow[r]) == Folded(inside, r, d.hardware[r])
  }

  lemma WindowRegister(c: Cache, before: seq<Op>, inside: seq<Op>, r: nat)
    requires Settled(c) && ValidOps(before) && ValidOps(inside) && r < REGS
    ensures ValidOps(before + inside)
    ensures var d := Deferred(c, before);
            && Synced(Windowed(d, inside)).hardware[r] == Folded(inside, r, d.hardware[r])
            && Synced(Windowed(d, inside)).shadow[r] == Folded(inside, r, d.hardware[r])
            && WrittenAll(c, before + inside).hardware[r] == Folded(inside, r, d.shadow[r])
            && WrittenAll(c, before + inside).shadow[r] == Folded(inside, r, d.shadow[r])
  {
    var d := Deferred(c, before);
    DeferFolds(c.(cacheOnly := true), before, r);
    BypassFolds(Stepped(d, EnterGuard), inside, r);
    FoldedConcat(before, inside, r, c.shadow[r]);
    ThroughFolds(c, before + inside, r);
  }

  /** Deferring writes, running a bypass window and syncing gives both copies what the same writes
      give them write-through, if and only if on every register the window's writes wipe out the
      difference between the deferred and the stored value. */
  lemma WindowIsWriteThroughIff(c: Cache, before: seq<Op>, inside: seq<Op>)
    requires Settled(c) && ValidOps(before) && ValidOps(inside)
    ensures ValidOps(before + inside)
    ensures var d := Deferred(c, before);
            var done, through := Synced(Windowed(d, inside)), WrittenAll(c, before + inside);
            (done.hardware == through.hardware && done.shadow == through.shadow) <==>
              forall r: nat :: r < REGS ==> Overrides(d, inside, r)
  {
    var d := Deferred(c, before);
    FoldedConcat(before, inside, 0, c.shadow[0]);
    var done, through := Synced(Windowed(d, inside)), WrittenAll(c, before + inside);
    forall r: nat | r < REGS
      ensures Overrides(d, inside, r) <==> done.hardware[r] == through.hardware[r]
      ensures Overrides(d, inside, r) <==> done.shadow[r] == through.shadow[r]
    {
      WindowRegister(c, before, inside, r);
    }
    if forall r: nat :: r < REGS ==> Overrides(d, inside, r) {
      assert done.hardware == through.hardware && done.shadow == through.shadow;
    } else {
      var r: nat :| r < REGS && !Overrides(d, inside, r);
      assert done.hardware[r] != through.hardware[r];
    }
  }

  /** What a caller can see: with no register dirty when the guard is entered, nothing is lost. */
  lemma CleanWindowIsWriteThrough(c: Cache, before: seq<Op>, inside: seq<Op>)
    requires Settled(c) && ValidOps(before) && ValidOps(inside)
    requires forall r :: 0 <= r < REGS ==> !Deferred(c, before).dirty[r]
    ensures ValidOps(before + inside)
    ensures var done, through := Synced(Windowed(Deferred(c, before), inside)), WrittenAll(c, before + inside);
            done.hardware == through.hardware && done.shadow == through.shadow
  {
    var d := Deferred(c, before);
    StayAlike(c.(cacheOnly := true), c, before);
    forall r: nat | r < REGS ensures Overrides(d, inside, r) {
      assert d.shadow[r] == d.hardware[r];
    }
    WindowIsWriteThroughIff(c, before, inside);
  }

  /** A whole-word write inside the window settles its register, whatever is pending there. */
  lemma {:induction false} WholeWriteOverrides(inside: seq<Op>, r: nat, i: nat, w: Bits, v: Bits)
    requires ValidOps(inside) && Word(w) && Word(v)
    requires i < |inside| && inside[i].Whole? && inside[i].reg == r
    ensures Folded(inside, r, w) == Folded(inside, r, v)
    decreases |inside|
  {
    if i != 0 {
      var op := inside[0];
      WholeWriteOverrides(inside[1..], r, i - 1, if op.reg == r then Landed(op, w) else w,
                          if op.reg == r then Landed(op, v) else v);
    }
  }

  /** A register with its lowest bit set. */
  function One(): (w: Bits)
    ensures Word(w) && w[0]
  {
    Zero()[0 := true]
  }

  /** The promise fails: one deferred write, then a window that writes nothing, and after the sync
      neither copy has the value. */
  lemma WindowLosesDeferredWrite(c: Cache)
    requires Settled(c) && c.hardware[0] == Zero()
    ensures var before := [Whole(0, One())];
            var done, through := Synced(Windowed(Deferred(c, before), [])), WrittenAll(c, before + []);
            && done.hardware[0] == done.shadow[0] == Zero()
            && through.hardware[0] == through.shadow[0] == One()
            && done.hardware != through.hardware
  {
    var before := [Whole(0, One())];
    WindowRegister(c, before, [], 0);
    DeferFolds(c.(cacheOnly := true), before, 0);
    assert before[1..] == [];
    assert Folded(before, 0, c.shadow[0]) == One();
    assert One()[0] != Zero()[0];
  }

  // ---- the cache object -----------------------------------------------------------------

  class PeriphRegCache {
    const shadow: array<Bits>
    const hardware: array<Bits>
    const dirty: array<bool>
    var cacheOnly: bool
    var bypass: bool

    ghost predicate Valid()
      reads this, shadow, hardware, dirty
    {
      && shadow != hardware
      && Registers(shadow[..]) && Registers(hardware[..]) && dirty.Length == REGS
    }

    ghost function View(): Cache
      reads this, shadow, hardware, dirty
    {
      Cache(shadow[..], hardware[..], dirty[..], cacheOnly, bypass)
    }

    constructor ()
      ensures Valid() && fresh(shadow) && fresh(hardware) && fresh(dirty)
      ensures View() == Cache(seq(REGS, _ => Zero()), seq(REGS, _ => Zero()), seq(REGS, _ => false), false, false)
    {
      shadow := new Bits[REGS](_ => Zero());
      hardware := new Bits[REGS](_ => Zero());
      dirty := new bool[REGS](_ => false);
      cacheOnly, bypass := false, false;
      new;
      assert shadow[..] == seq(REGS, _ => Zero());
      assert hardware[..] == seq(REGS, _ => Zero());
      assert dirty[..] == seq(REGS, _ => false);
    }

    /** Both write entry points: the value lands whole or through its field. */
    method Apply(op: Op)
      requires Valid() && ValidOp(op)
      modifies shadow, hardware, dirty
      ensures Valid() && View() == Written(old(View()), op)
    {
      var r := op.reg;
      if bypass {
        hardware[r] := Landed(op, hardware[r]);
        assert hardware[..] == Put(old(hardware[..]), op);
        return;
      }
      if cacheOnly {
        shadow[r] := Landed(op, shadow[r]);
        dirty[r] := true;
        assert shadow[..] == Put(old(shadow[..]), op);
        return;
      }
      hardware[r] := Landed(op, hardware[r]);
      shadow[r] := Landed(op, shadow[r]);
      assert hardware[..] == Put(old(hardware[..]), op);
      assert shadow[..] == Put(old(shadow[..]), op);
    }

    /** Commit every dirty register; refused while still deferring. */
    method Commit() returns (ok: bool)
      requires Valid()
      modifies hardware, dirty
      ensures ok == !cacheOnly
      ensures Valid() && View() == Synced(old(View()))
    {
      if cacheOnly {
        return false;
      }
      var r := 0;
      while r < REGS
        invariant 0 <= r <= REGS
        invariant forall k :: 0 <= k < r ==> !dirty[k] && hardware[k] == if old(dirty[k]) then shadow[k] else old(hardware[k])
        invariant forall k :: r <= k < REGS ==> dirty[k] == old(dirty[k]) && hardware[k] == old(hardware[k])
      {
        if dirty[r] {
          hardware[r] := shadow[r];
          dirty[r] := false;
        }
        r := r + 1;
      }
      assert hardware[..] == Synced(old(View())).hardware;
      assert dirty[..] == Synced(old(View())).dirty;
      return true;
    }

    /** Replay the whole shadow into the hardware. */
    method FullRepush()
      requires Valid()
      modifies hardware
      ensures Valid() && View() == Stepped(old(View()), Repush)
    {
      var r := 0;
      while r < REGS
        invariant 0 <= r <= REGS
        invariant forall k :: 0 <= k < r ==> hardware[k] == shadow[k]
        invariant Registers(hardware[..])
      {
        hardware[r] := shadow[r];
        r := r + 1;
      }
      assert hardware[..] == shadow[..];
    }

    /** The guard's constructor and destructor. */
    method EnterBypass()
      requires Valid()
      modifies this`bypass
      ensures Valid() && View() == Stepped(old(View()), EnterGuard)
    {
      bypass := true;
    }

    method LeaveBypass()
      requires Valid()
      modifies this`bypass, shadow
      ensures Valid() && View() == Stepped(old(View()), LeaveGuard)
    {
      bypass := false;
      forall r | 0 <= r < REGS {
        shadow[r] := hardware[r];
      }
      assert shadow[..] == hardware[..];
    }
  }
}
