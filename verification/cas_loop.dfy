/** Any number of threads run a compare-and-swap retry loop on one word: what they do together
    is what their inputs do one after the other. The loop is the breaker's `update`
    (include/coact/monitor.hpp), for an arbitrary transformation `f` of the word. */
module CasLoop {
  type Id = int

  /** Calling has not loaded the word yet; Looping holds the value it last observed. */
  datatype Pc<W> = Calling | Looping(observed: W) | Returned

  datatype Thread<W, I> = Thread(input: I, pc: Pc<W>)

  datatype Entry<I> = Entry(id: Id, input: I)

  /** `log` lists the inputs in the order in which they take effect: at the successful exchange,
      or at the read of a word that the input does not change. */
  datatype World<W, I> = World(word: W, threads: map<Id, Thread<W, I>>, log: seq<Entry<I>>)

  datatype Label<I> = Call(id: Id, input: I) | Load(id: Id) | Try(id: Id, spurious: bool)

  function Begin<W, I>(initial: W): World<W, I> {
    World(initial, map[], [])
  }

  /** The word has been read; an input that would not change it takes effect here. */
  function Observe<W(==), I>(f: (W, I) -> W, s: World<W, I>, id: Id, input: I): World<W, I> {
    s.(threads := s.threads[id := Thread(input, Looping(s.word))],
       log := if f(s.word, input) == s.word then s.log + [Entry(id, input)] else s.log)
  }

  /** One round of the loop: done when nothing changes, else exchange; a failed exchange, weak or
      lost, observes the word anew. */
  function Round<W(==), I>(f: (W, I) -> W, s: World<W, I>, id: Id, input: I, observed: W, spurious: bool): World<W, I> {
    if f(observed, input) == observed then s.(threads := s.threads[id := Thread(input, Returned)])
    else if s.word == observed && !spurious then
      World(f(observed, input), s.threads[id := Thread(input, Returned)], s.log + [Entry(id, input)])
    else Observe(f, s, id, input)
  }

  function Step<W(==), I>(f: (W, I) -> W, s: World<W, I>, l: Label<I>): World<W, I> {
    if l.Call? then
      if l.id in s.threads then s else s.(threads := s.threads[l.id := Thread(l.input, Calling)])
    else if l.id !in s.threads then s
    else
      var t := s.threads[l.id];
      if l.Load? && t.pc.Calling? then Observe(f, s, l.id, t.input)
      else if l.Try? && t.pc.Looping? then Round(f, s, l.id, t.input, t.pc.observed, l.spurious)
      else s
  }

  function RunFrom<W(==), I>(f: (W, I) -> W, s: World<W, I>, schedule: seq<Label<I>>): World<W, I>
    decreases |schedule|
  {
    if schedule == [] then s else RunFrom(f, Step(f, s, schedule[0]), schedule[1..])
  }

  function Run<W(==), I>(f: (W, I) -> W, initial: W, schedule: seq<Label<I>>): World<W, I> {
    RunFrom(f, Begin(initial), schedule)
  }

  /** The inputs of the log, applied one after the other. */
  function Sequential<W, I>(f: (W, I) -> W, initial: W, log: seq<Entry<I>>): W {
    if log == [] then initial else f(Sequential(f, initial, log[..|log| - 1]), log[|log| - 1].input)
  }

  /** The input of the thread has taken effect. */
  predicate Effective<W(==), I>(f: (W, I) -> W, t: Thread<W, I>) {
    t.pc.Returned? || (t.pc.Looping? && f(t.pc.observed, t.input) == t.pc.observed)
  }

  predicate Logged<W, I>(s: World<W, I>, id: Id) {
    exists i :: 0 <= i < |s.log| && s.log[i].id == id
  }

  /** No thread is in the log twice, and the log holds each thread's own input once it is
      effective and not before. */
  ghost predicate LogExact<W, I>(f: (W, I) -> W, s: World<W, I>) {
    && (forall i, j :: 0 <= i < j < |s.log| ==> s.log[i].id != s.log[j].id)
    && (forall i :: 0 <= i < |s.log| ==>
          s.log[i].id in s.threads && s.threads[s.log[i].id].input == s.log[i].input)
    && (forall id :: id in s.threads ==> (Logged(s, id) <==> Effective(f, s.threads[id])))
  }

  ghost predicate WordExact<W, I>(f: (W, I) -> W, initial: W, s: World<W, I>) {
    s.word == Sequential(f, initial, s.log)
  }

  lemma SequentialSnoc<W, I>(f: (W, I) -> W, initial: W, log: seq<Entry<I>>, e: Entry<I>)
    ensures Sequential(f, initial, log + [e]) == f(Sequential(f, initial, log), e.input)
  {
    assert (log + [e])[..|log|] == log;
  }

  lemma WordStep<W, I>(f: (W, I) -> W, initial: W, s: World<W, I>, l: Label<I>)
    requires WordExact(f, initial, s)
    ensures WordExact(f, initial, Step(f, s, l))
  {
    if l.id in s.threads {
      SequentialSnoc(f, initial, s.log, Entry(l.id, s.threads[l.id].input));
    }
  }

  lemma LoggedSnoc<W, I>(s: World<W, I>, t: World<W, I>, e: Entry<I>, id: Id)
    requires t.log == s.log + [e]
    ensures Logged(t, id) <==> Logged(s, id) || id == e.id
  {
    if Logged(s, id) {
      var i :| 0 <= i < |s.log| && s.log[i].id == id;
      assert t.log[i].id == id;
    }
    assert t.log[|s.log|] == e;
  }

  lemma LogStep<W, I>(f: (W, I) -> W, s: World<W, I>, l: Label<I>)
    requires LogExact(f, s)
    ensures LogExact(f, Step(f, s, l))
  {
    var t := Step(f, s, l);
    if t.log == s.log {
      forall id ensures Logged(t, id) <==> Logged(s, id) {
      }
      if l.Call? && l.id !in s.threads {
        assert !Logged(s, l.id);
      }
    } else {
      var e := Entry(l.id, s.threads[l.id].input);
      assert t.log == s.log + [e];
      forall id ensures Logged(t, id) <==> Logged(s, id) || id == e.id {
        LoggedSnoc(s, t, e, id);
      }
      assert !Logged(s, l.id);
    }
  }

  lemma {:induction false} ExactFrom<W, I>(f: (W, I) -> W, initial: W, s: World<W, I>, schedule: seq<Label<I>>)
    requires WordExact(f, initial, s) && LogExact(f, s)
    ensures WordExact(f, initial, RunFrom(f, s, schedule)) && LogExact(f, RunFrom(f, s, schedule))
    decreases |schedule|
  {
    if schedule != [] {
      WordStep(f, initial, s, schedule[0]);
      LogStep(f, s, schedule[0]);
      ExactFrom(f, initial, Step(f, s, schedule[0]), schedule[1..]);
    }
  }

  /** Whatever the interleaving, the word is the result of applying the effective inputs one
      after the other, and every call that has returned is among them exactly once. */
  lemma UpdatesAreSequential<W, I>(f: (W, I) -> W, initial: W, schedule: seq<Label<I>>)
    ensures WordExact(f, initial, Run(f, initial, schedule)) && LogExact(f, Run(f, initial, schedule))
  {
    ExactFrom(f, initial, Begin(initial), schedule);
  }

  lemma {:induction false} LogGrows<W, I>(f: (W, I) -> W, s: World<W, I>, schedule: seq<Label<I>>)
    ensures s.log <= RunFrom(f, s, schedule).log
    decreases |schedule|
  {
    if schedule != [] {
      LogGrows(f, Step(f, s, schedule[0]), schedule[1..]);
    }
  }

  /** The order of effects respects real time: a call that has returned takes effect before a
      call that has not begun. */
  lemma ReturnedBeforeCalled<W, I>(
      f: (W, I) -> W, initial: W, schedule: seq<Label<I>>, more: seq<Label<I>>, a: Id, b: Id, i: nat, j: nat)
    requires var s := Run(f, initial, schedule); a in s.threads && s.threads[a].pc.Returned? && b !in s.threads
    requires var t := RunFrom(f, Run(f, initial, schedule), more);
             i < |t.log| && j < |t.log| && t.log[i].id == a && t.log[j].id == b
    ensures i < j
  {
    var s := Run(f, initial, schedule);
    UpdatesAreSequential(f, initial, schedule);
    ExactFrom(f, initial, s, more);
    LogGrows(f, s, more);
    var t := RunFrom(f, s, more);
    assert Logged(s, a);
    var k :| 0 <= k < |s.log| && s.log[k].id == a;
    assert t.log[k].id == a;
    assert !Logged(s, b);
    assert forall n :: 0 <= n < |s.log| ==> t.log[n] == s.log[n];
  }
}
