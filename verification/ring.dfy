/** The ring of rejection records under any number of concurrent writers and readers, one atomic
    access at a time (include/coact/monitor.hpp). */
module Ring {
  type Id = int

  /** target, disposition, reason, now and budget, in the order in which they are stored. */
  const FIELDS: nat := 5

  type Record = seq<int>

  datatype Slot = Slot(seqNo: int, fields: Record, writing: bool)

  /** A writer is known by the sequence number that its increment of the count gave it. */
  datatype WriterPc = Claiming | Opening | Filling(n: int) | Closing | Clearing | Done | Dropped

  datatype Writer = Writer(record: Record, pc: WriterPc)

  datatype Error = Empty | OutOfRange | Evicted | Torn

  datatype ReaderPc =
    | Counting
    | FirstCheck
    | Reading(n: int)
    | LastCheck
    | Failed(error: Error)
    | Found

  /** `total` is the count it loaded, `got` the fields it has read so far. */
  datatype Reader = Reader(wanted: int, pc: ReaderPc, total: int, got: Record)

  datatype State = State(
    count: int, dropped: int, slots: seq<Slot>, writers: map<int, Writer>, readers: map<Id, Reader>)

  datatype Label = Record(record: Record) | Write(q: int) | Lookup(id: Id, wanted: int) | Read(id: Id)

  predicate IsRecord(r: Record) {
    |r| == FIELDS
  }

  function Begin(slots: nat): State {
    State(0, 0, seq(slots, _ => Slot(0, [0, 0, 0, 0, 0], false)), map[], map[])
  }

  /** The slot of a sequence number. */
  function SlotOf(slots: int, q: int): (i: int)
    requires slots > 0
    ensures 0 <= i < slots
  {
    (q - 1) % slots
  }

  // ---- record ---------------------------------------------------------------------------

  /** What the next access of writer q makes of its slot. */
  function SlotWritten(s: Slot, q: int, w: Writer): Slot {
    match w.pc
    case Claiming => s.(writing := true)
    case Opening => s.(seqNo := 2 * q + 1)
    case Filling(n) => if 0 <= n < |s.fields| && n < |w.record| then s.(fields := s.fields[n := w.record[n]]) else s
    case Closing => s.(seqNo := 2 * q)
    case Clearing => s.(writing := false)
    case Done => s
    case Dropped => s
  }

  function WriterMoved(s: Slot, w: Writer): Writer {
    match w.pc
    case Claiming => w.(pc := if s.writing then Dropped else Opening)
    case Opening => w.(pc := Filling(0))
    case Filling(n) => w.(pc := if n + 1 < FIELDS then Filling(n + 1) else Closing)
    case Closing => w.(pc := Clearing)
    case Clearing => w.(pc := Done)
    case Done => w
    case Dropped => w
  }

  function WriteStep(s: State, q: int): State
    requires |s.slots| > 0 && q in s.writers
  {
    var i, w := SlotOf(|s.slots|, q), s.writers[q];
    s.(slots := s.slots[i := SlotWritten(s.slots[i], q, w)],
       writers := s.writers[q := WriterMoved(s.slots[i], w)],
       dropped := if w.pc.Claiming? && s.slots[i].writing then s.dropped + 1 else s.dropped)
  }

  // ---- lookup ---------------------------------------------------------------------------

  function Counted(slots: int, r: Reader, total: int): Reader {
    r.(total := total,
       pc := if total == 0 then Failed(Empty)
             else if r.wanted == 0 || r.wanted > total then Failed(OutOfRange)
             else if total - r.wanted >= slots then Failed(Evicted)
             else FirstCheck)
  }

  function ReaderMoved(count: int, slots: int, slot: Slot, r: Reader): Reader {
    match r.pc
    case Counting => Counted(slots, r, count)
    case FirstCheck => r.(pc := if slot.seqNo == 2 * r.wanted then Reading(0) else Failed(Torn))
    case Reading(n) =>
      r.(got := if 0 <= n < |slot.fields| then r.got + [slot.fields[n]] else r.got,
         pc := if n + 1 < FIELDS then Reading(n + 1) else LastCheck)
    case LastCheck => r.(pc := if slot.seqNo == 2 * r.wanted then Found else Failed(Torn))
    case Failed(_) => r
    case Found => r
  }

  function Step(s: State, l: Label): State
    requires |s.slots| > 0
  {
    match l
    case Record(r) =>
      if IsRecord(r) then s.(count := s.count + 1, writers := s.writers[s.count + 1 := Writer(r, Claiming)]) else s
    case Write(q) => if q in s.writers then WriteStep(s, q) else s
    case Lookup(id, wanted) =>
      if id in s.readers || wanted < 0 then s
      else s.(readers := s.readers[id := Reader(wanted, Counting, 0, [])])
    case Read(id) =>
      if id in s.readers then
        var r := s.readers[id];
        s.(readers := s.readers[id := ReaderMoved(s.count, |s.slots|, s.slots[SlotOf(|s.slots|, r.wanted)], r)])
      else s
  }

  function RunFrom(s: State, schedule: seq<Label>): State
    requires |s.slots| > 0
    decreases |schedule|
  {
    if schedule == [] then s else RunFrom(Step(s, schedule[0]), schedule[1..])
  }

  function Run(slots: nat, schedule: seq<Label>): State
    requires slots > 0
  {
    RunFrom(Begin(slots), schedule)
  }

  // ---- the slots ------------------------------------------------------------------------

  /** The writer owns the writing flag of its slot. */
  predicate Owning(w: Writer) {
    w.pc.Opening? || w.pc.Filling? || w.pc.Closing? || w.pc.Clearing?
  }

  /** The writer has stored the even sequence number. */
  predicate Published(w: Writer) {
    w.pc.Clearing? || w.pc.Done?
  }

  /** What an owning writer has put into its slot. */
  predicate Holds(slot: Slot, q: int, w: Writer) {
    && |slot.fields| == FIELDS && IsRecord(w.record)
    && (Owning(w) ==> slot.writing)
    && (w.pc.Filling? ==>
          && 0 <= w.pc.n < FIELDS && slot.seqNo == 2 * q + 1
          && forall j :: 0 <= j < w.pc.n ==> slot.fields[j] == w.record[j])
    && (w.pc.Closing? ==> slot.seqNo == 2 * q + 1 && slot.fields == w.record)
  }

  /** An even sequence number in a slot is that of a record published there, whole. */
  ghost predicate Whole(s: State, i: int)
    requires 0 <= i < |s.slots|
  {
    var slot := s.slots[i];
    var q := slot.seqNo / 2;
    && |slot.fields| == FIELDS
    && (slot.seqNo != 0 && slot.seqNo == 2 * q ==>
          && q in s.writers && SlotOf(|s.slots|, q) == i && Published(s.writers[q])
          && slot.fields == s.writers[q].record)
  }

  ghost predicate WritersOk(s: State)
    requires |s.slots| > 0
  {
    && s.count >= 0
    && (forall q :: q in s.writers <==> 1 <= q <= s.count)
    && (forall q :: q in s.writers ==> Holds(s.slots[SlotOf(|s.slots|, q)], q, s.writers[q]))
  }

  /** At most one writer owns a slot. */
  ghost predicate OneOwner(s: State)
    requires |s.slots| > 0
  {
    forall p, q :: p in s.writers && q in s.writers && p != q && Owning(s.writers[p]) && Owning(s.writers[q]) ==>
      SlotOf(|s.slots|, p) != SlotOf(|s.slots|, q)
  }

  ghost predicate SlotsOk(s: State) {
    forall i :: 0 <= i < |s.slots| ==> Whole(s, i)
  }

  // ---- the readers ----------------------------------------------------------------------

  /** Past its first check a reader's record has been published for good, and as long as the slot
      still shows its number everything read so far belongs to that record. */
  ghost predicate ReaderOk(s: State, r: Reader)
    requires |s.slots| > 0
  {
    && r.wanted >= 0
    && (!r.pc.Counting? && !r.pc.Failed? ==> 1 <= r.wanted <= r.total && r.total - r.wanted < |s.slots|)
    && (r.pc.Reading? || r.pc.LastCheck? ==>
          && r.wanted in s.writers && Published(s.writers[r.wanted])
          && |r.got| == (if r.pc.Reading? then r.pc.n else FIELDS) && |r.got| <= FIELDS
          && (s.slots[SlotOf(|s.slots|, r.wanted)].seqNo == 2 * r.wanted ==> r.got <= s.writers[r.wanted].record))
    && (r.pc.Counting? || r.pc.FirstCheck? ==> r.got == [])
    && (r.pc.Reading? ==> 0 <= r.pc.n < FIELDS)
    && (r.pc.Found? ==> r.wanted in s.writers && Published(s.writers[r.wanted]) && r.got == s.writers[r.wanted].record)
  }

  ghost predicate ReadersOk(s: State)
    requires |s.slots| > 0
  {
    forall id :: id in s.readers ==> ReaderOk(s, s.readers[id])
  }

  ghost predicate Ok(s: State) {
    |s.slots| > 0 && WritersOk(s) && OneOwner(s) && SlotsOk(s) && ReadersOk(s)
  }

  // ---- every step keeps all of it -------------------------------------------------------

  lemma WriteKeepsWriters(s: State, q: int)
    requires Ok(s) && q in s.writers
    ensures WritersOk(WriteStep(s, q))
  {
    var t, i := WriteStep(s, q), SlotOf(|s.slots|, q);
    forall p | p in t.writers
      ensures Holds(t.slots[SlotOf(|t.slots|, p)], p, t.writers[p])
    {
      assert Holds(s.slots[SlotOf(|s.slots|, p)], p, s.writers[p]);
      assert Holds(s.slots[i], q, s.writers[q]);
    }
  }

  lemma WriteKeepsOwner(s: State, q: int)
    requires Ok(s) && q in s.writers
    ensures OneOwner(WriteStep(s, q))
  {
    var t := WriteStep(s, q);
    forall p | p in s.writers && p != q && Owning(s.writers[p]) && Owning(t.writers[q])
      ensures SlotOf(|s.slots|, p) != SlotOf(|s.slots|, q)
    {
      assert Holds(s.slots[SlotOf(|s.slots|, p)], p, s.writers[p]);
    }
  }

  lemma WriteKeepsSlots(s: State, q: int)
    requires Ok(s) && q in s.writers
    ensures SlotsOk(WriteStep(s, q))
  {
    var t, j := WriteStep(s, q), SlotOf(|s.slots|, q);
    assert Holds(s.slots[j], q, s.writers[q]);
    forall i | 0 <= i < |t.slots|
      ensures Whole(t, i)
    {
      assert Whole(s, i);
    }
  }

  lemma WriteKeepsReaders(s: State, q: int)
    requires Ok(s) && q in s.writers
    ensures ReadersOk(WriteStep(s, q))
  {
    var t, j := WriteStep(s, q), SlotOf(|s.slots|, q);
    assert Holds(s.slots[j], q, s.writers[q]);
    forall id | id in t.readers
      ensures ReaderOk(t, t.readers[id])
    {
      assert ReaderOk(s, s.readers[id]);
    }
  }

  lemma ReadMoves(s: State, r: Reader)
    requires Ok(s) && ReaderOk(s, r)
    ensures ReaderOk(s, ReaderMoved(s.count, |s.slots|, s.slots[SlotOf(|s.slots|, r.wanted)], r))
  {
    assert Whole(s, SlotOf(|s.slots|, r.wanted));
  }

  /** Nothing but the readers, the count and new writers changed. */
  lemma Unwritten(s: State, t: State)
    requires Ok(s) && t.slots == s.slots && WritersOk(t) && OneOwner(t)
    requires forall q :: q in s.writers ==> q in t.writers && t.writers[q] == s.writers[q]
    ensures SlotsOk(t)
    ensures forall r :: ReaderOk(s, r) ==> ReaderOk(t, r)
  {
    forall i | 0 <= i < |t.slots|
      ensures Whole(t, i)
    {
      assert Whole(s, i);
    }
  }

  lemma RecordKeeps(s: State, r: Record)
    requires Ok(s) && IsRecord(r)
    ensures Ok(Step(s, Label.Record(r)))
  {
    var t := Step(s, Label.Record(r));
    assert Whole(s, SlotOf(|s.slots|, s.count + 1));
    assert WritersOk(t);
    Unwritten(s, t);
  }

  lemma StepOk(s: State, l: Label)
    requires Ok(s)
    ensures Ok(Step(s, l))
  {
    match l
    case Record(r) =>
      if IsRecord(r) {
        RecordKeeps(s, r);
      }
    case Write(q) =>
      if q in s.writers {
        WriteKeepsWriters(s, q);
        WriteKeepsOwner(s, q);
        WriteKeepsSlots(s, q);
        WriteKeepsReaders(s, q);
      }
    case Lookup(id, wanted) =>
      Unwritten(s, Step(s, l));
    case Read(id) =>
      if id in s.readers {
        ReadMoves(s, s.readers[id]);
        Unwritten(s, Step(s, l));
      }
  }

  lemma {:induction false} OkFrom(s: State, schedule: seq<Label>)
    requires Ok(s)
    ensures Ok(RunFrom(s, schedule))
    decreases |schedule|
  {
    if schedule != [] {
      StepOk(s, schedule[0]);
      OkFrom(Step(s, schedule[0]), schedule[1..]);
    }
  }

  lemma {:induction false} SlotsStay(s: State, schedule: seq<Label>)
    requires |s.slots| > 0
    ensures |RunFrom(s, schedule).slots| == |s.slots|
    decreases |schedule|
  {
    if schedule != [] {
      SlotsStay(Step(s, schedule[0]), schedule[1..]);
    }
  }

  /** The records of a schedule, in the order in which they were given their numbers. */
  function Recorded(schedule: seq<Label>): seq<Record>
    decreases |schedule|
  {
    if schedule == [] then []
    else (if schedule[0].Record? && IsRecord(schedule[0].record) then [schedule[0].record] else []) + Recorded(schedule[1..])
  }

  /** The writers are numbered by the count. */
  ghost predicate Numbered(s: State) {
    |s.slots| > 0 && s.count >= 0 && forall q :: q in s.writers <==> 1 <= q <= s.count
  }

  /** Every writer of s is still there with its record. */
  ghost predicate Kept(s: State, t: State) {
    forall q :: q in s.writers ==> q in t.writers && t.writers[q].record == s.writers[q].record
  }

  lemma NumberedStep(s: State, l: Label)
    requires Numbered(s)
    ensures var t := Step(s, l);
            && Numbered(t) && Kept(s, t)
            && t.count == s.count + |Recorded([l])|
            && (t.count > s.count ==> t.writers[t.count].record == Recorded([l])[0])
  {
  }

  /** A record keeps its number: the n-th record of the schedule is the one of writer n. */
  lemma {:induction false} RecordsFrom(s: State, schedule: seq<Label>)
    requires Numbered(s)
    ensures var t := RunFrom(s, schedule);
            && t.count == s.count + |Recorded(schedule)| && Kept(s, t)
            && (forall q :: s.count < q <= t.count ==>
                  q in t.writers && t.writers[q].record == Recorded(schedule)[q - s.count - 1])
    decreases |schedule|
  {
    if schedule != [] {
      var u, rest := Step(s, schedule[0]), schedule[1..];
      NumberedStep(s, schedule[0]);
      RecordsFrom(u, rest);
      assert Recorded(schedule) == Recorded([schedule[0]]) + Recorded(rest);
    }
  }

  /** A lookup that succeeds returns exactly the fields of the one record that was given the
      number it asked for; that record was published, not dropped, and had not left the ring
      when the lookup loaded the count. */
  lemma LookupsAreWhole(slots: nat, schedule: seq<Label>, id: Id)
    requires slots > 0
    requires var s := Run(slots, schedule); id in s.readers && s.readers[id].pc.Found?
    ensures var s := Run(slots, schedule); var r := s.readers[id];
            && 1 <= r.wanted <= r.total && r.total - r.wanted < slots
            && r.wanted in s.writers && Published(s.writers[r.wanted])
            && r.wanted <= |Recorded(schedule)| && r.got == Recorded(schedule)[r.wanted - 1]
  {
    var s := Run(slots, schedule);
    OkFrom(Begin(slots), schedule);
    SlotsStay(Begin(slots), schedule);
    RecordsFrom(Begin(slots), schedule);
    assert ReaderOk(s, s.readers[id]);
  }

  /** A reader alone, its slot and the count unchanged. */
  function ReadAlone(count: int, slots: int, slot: Slot, r: Reader, steps: nat): Reader
    decreases steps
  {
    if steps == 0 then r else ReadAlone(count, slots, slot, ReaderMoved(count, slots, slot, r), steps - 1)
  }

  /** A lookup that no writer disturbs succeeds whenever the slot still shows the number it asks
      for and the count has not moved past it. */
  lemma QuietLookupFinds(count: int, slots: int, slot: Slot, q: int)
    requires 1 <= q <= count && count - q < slots && slot.seqNo == 2 * q && |slot.fields| == FIELDS
    ensures ReadAlone(count, slots, slot, Reader(q, Counting, 0, []), 8) == Reader(q, Found, count, slot.fields)
  {
    var f := slot.fields;
    var r := Reader(q, Reading(0), count, []);
    assert ReadAlone(count, slots, slot, Reader(q, Counting, 0, []), 8) == ReadAlone(count, slots, slot, r, 6);
    assert ReadAlone(count, slots, slot, r, 6)
        == ReadAlone(count, slots, slot, Reader(q, Reading(2), count, [f[0], f[1]]), 4);
    assert ReadAlone(count, slots, slot, Reader(q, Reading(2), count, [f[0], f[1]]), 4)
        == ReadAlone(count, slots, slot, Reader(q, Reading(4), count, [f[0], f[1], f[2], f[3]]), 2);
    assert [f[0], f[1], f[2], f[3]] + [f[4]] == f;
  }
}
