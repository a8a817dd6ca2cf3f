/** The circuit breaker: its packed word, its transitions, the compare-and-swap retry loop that
    applies them, and what a recovery requires (include/coact/monitor.hpp). */
module Breaker {
  import CasLoop

  // ---- the state and its 32-bit word ----------------------------------------------------

  /** An undefined level can only come from a word that no state packs to. */
  datatype Level = Normal | BrokenL1 | BrokenL2 | Safe | Recovering | Undefined

  const PERSIST := 3
  const COOLDOWN_MAX := 0xffff

  datatype State = State(
    level: Level, cooldown: int, direct: int, rtc: int, high: int, low: int, healthy: int, probe: bool)

  const START := State(Normal, 0, 0, 0, 0, 0, 0, false)

  function CodeOf(l: Level): int {
    match l
    case Normal => 0
    case BrokenL1 => 1
    case BrokenL2 => 2
    case Safe => 3
    case Recovering => 4
    case Undefined => 5
  }

  function LevelOf(code: int): Level {
    if code == 0 then Normal
    else if code == 1 then BrokenL1
    else if code == 2 then BrokenL2
    else if code == 3 then Safe
    else if code == 4 then Recovering
    else Undefined
  }

  /** The packed word: level in bits 0 to 2, cooldown from bit 3, then five two-bit counters from
      bit 19 and the probe flag in bit 29, as a number. */
  function Pack(s: State): int {
    CodeOf(s.level) + 0x8 * s.cooldown + 0x8_0000 * s.direct + 0x20_0000 * s.rtc + 0x80_0000 * s.high
    + 0x200_0000 * s.low + 0x800_0000 * s.healthy + 0x2000_0000 * (if s.probe then 1 else 0)
  }

  function Unpack(w: int): State {
    State(LevelOf(w % 8), (w / 0x8) % 0x1_0000, (w / 0x8_0000) % 4, (w / 0x20_0000) % 4, (w / 0x80_0000) % 4,
          (w / 0x200_0000) % 4, (w / 0x800_0000) % 4, (w / 0x2000_0000) % 2 != 0)
  }

  /** Every field fits its bits. */
  predicate Fits(s: State) {
    && 0 <= s.cooldown <= COOLDOWN_MAX && 0 <= s.direct <= 3 && 0 <= s.rtc <= 3 && 0 <= s.high <= 3
    && 0 <= s.low <= 3 && 0 <= s.healthy <= 3
  }

  lemma AtLeastBase(base: int, d: int)
    requires base > 0
    ensures d >= 1 ==> base * d >= base
    ensures d <= -1 ==> base * d <= -base
  {
  }

  lemma QuotientOf(base: int, x: int, rest: int)
    requires 0 <= rest < base
    ensures (rest + base * x) / base == x && (rest + base * x) % base == rest
  {
    var q, r := (rest + base * x) / base, (rest + base * x) % base;
    assert base * q + r == rest + base * x;
    assert base * (q - x) == rest - r;
    AtLeastBase(base, q - x);
  }

  /** A two-bit counter is read back from its place in the word. */
  lemma CounterOf(word: int, base: int, rest: int, counter: int, above: int)
    requires 0 <= rest < base && 0 <= counter < 4 && word == rest + base * (counter + 4 * above)
    ensures (word / base) % 4 == counter
  {
    QuotientOf(base, counter + 4 * above, rest);
    QuotientOf(4, above, counter);
  }

  /** What the word holds from the first counter up, and below it. */
  function Upper(s: State): int {
    s.direct + 4 * (s.rtc + 4 * (s.high + 4 * (s.low + 4 * (s.healthy + 4 * (if s.probe then 1 else 0)))))
  }

  function Lower(s: State): int {
    CodeOf(s.level) + 8 * s.cooldown
  }

  lemma HeadOfPack(s: State)
    requires Fits(s)
    ensures Pack(s) % 8 == CodeOf(s.level) && (Pack(s) / 8) % 0x1_0000 == s.cooldown
  {
    QuotientOf(8, s.cooldown + 0x1_0000 * Upper(s), CodeOf(s.level));
    QuotientOf(0x1_0000, Upper(s), s.cooldown);
  }

  lemma MiddleOfPack(s: State)
    requires Fits(s)
    ensures (Pack(s) / 0x8_0000) % 4 == s.direct && (Pack(s) / 0x20_0000) % 4 == s.rtc
    ensures (Pack(s) / 0x80_0000) % 4 == s.high
  {
    var above := s.low + 4 * (s.healthy + 4 * (if s.probe then 1 else 0));
    CounterOf(Pack(s), 0x8_0000, Lower(s), s.direct, s.rtc + 4 * (s.high + 4 * above));
    CounterOf(Pack(s), 0x20_0000, Lower(s) + 0x8_0000 * s.direct, s.rtc, s.high + 4 * above);
    CounterOf(Pack(s), 0x80_0000, Lower(s) + 0x8_0000 * s.direct + 0x20_0000 * s.rtc, s.high, above);
  }

  lemma TailOfPack(s: State)
    requires Fits(s)
    ensures (Pack(s) / 0x200_0000) % 4 == s.low && (Pack(s) / 0x800_0000) % 4 == s.healthy
    ensures (Pack(s) / 0x2000_0000) % 2 == if s.probe then 1 else 0
  {
    var p := if s.probe then 1 else 0;
    var below := Lower(s) + 0x8_0000 * s.direct + 0x20_0000 * s.rtc + 0x80_0000 * s.high;
    CounterOf(Pack(s), 0x200_0000, below, s.low, s.healthy + 4 * p);
    CounterOf(Pack(s), 0x800_0000, below + 0x200_0000 * s.low, s.healthy, p);
    QuotientOf(0x2000_0000, p, below + 0x200_0000 * s.low + 0x800_0000 * s.healthy);
  }

  lemma UnpackOfPack(s: State)
    requires Fits(s)
    ensures 0 <= Pack(s) < 0x4000_0000
    ensures Unpack(Pack(s)) == s
  {
    HeadOfPack(s);
    MiddleOfPack(s);
    TailOfPack(s);
  }

  // ---- the transitions ------------------------------------------------------------------

  datatype Input =
    | DirectTimeout
    | RtcTimeout
    | Watermark(percent: nat)
    | Overflow
    | ReserveExhausted
    | Watchdog
    | Cycle
    | ProbeSuccess
    | ProbeFailure
    | Restore
    | RtcOk

  /** A counter stops at the largest value its two bits hold. */
  function Increment(counter: int): int {
    if counter < 3 then counter + 1 else counter
  }

  /** Enter L1, L2 or Safe: restart the cooldown and clear every counter. */
  function Degrade(cycles: int, level: Level): State {
    State(level, cycles, 0, 0, 0, 0, 0, false)
  }

  /** Enter Recovering: clear every counter and keep what is left of the cooldown. */
  function Recover(s: State): State {
    State(Recovering, s.cooldown, 0, 0, 0, 0, 0, false)
  }

  function OnDirectTimeout(cycles: int, s: State): State {
    var t := s.(direct := Increment(s.direct));
    if t.level == Normal && t.direct >= PERSIST then Degrade(cycles, BrokenL1)
    else if t.level == Recovering then Degrade(cycles, BrokenL2)
    else t
  }

  function OnRtcTimeout(cycles: int, s: State): State {
    var t := s.(rtc := Increment(s.rtc));
    if (t.level == Normal || t.level == BrokenL1) && t.rtc >= PERSIST then Degrade(cycles, BrokenL2)
    else if t.level == Recovering then Degrade(cycles, BrokenL2)
    else t
  }

  function OnWatermark(cycles: int, s: State, percent: nat): State {
    var t := s.(high := if percent > 80 then Increment(s.high) else 0,
                low := if percent < 50 then Increment(s.low) else 0);
    if (t.level == Normal || t.level == BrokenL1) && t.high >= PERSIST then Degrade(cycles, BrokenL2)
    else if (t.level == BrokenL1 || t.level == BrokenL2) && t.cooldown == 0 && t.low >= PERSIST then Recover(t)
    else if t.level == Recovering && percent >= 50 then Degrade(cycles, BrokenL2)
    else t
  }

  function OnCycle(s: State): State {
    var t := s.(cooldown := if s.cooldown > 0 then s.cooldown - 1 else 0);
    if t.level == Recovering && t.cooldown == 0 && t.probe then
      var h := Increment(t.healthy);
      if h >= PERSIST then t.(probe := false, level := Normal, healthy := 0) else t.(probe := false, healthy := h)
    else t
  }

  /** What one input does; `cycles` is the configured cooldown. */
  function Next(cycles: int, s: State, input: Input): State {
    match input
    case DirectTimeout => OnDirectTimeout(cycles, s)
    case RtcTimeout => OnRtcTimeout(cycles, s)
    case Watermark(percent) => OnWatermark(cycles, s, percent)
    case Overflow =>
      if s.level == Normal || s.level == BrokenL1 || s.level == Recovering then Degrade(cycles, BrokenL2) else s
    case ReserveExhausted => if s.level != Safe then Degrade(cycles, Safe) else s
    case Watchdog => if s.level != Safe then Degrade(cycles, Safe) else s
    case Cycle => OnCycle(s)
    case ProbeSuccess => if s.level == Recovering then s.(probe := true) else s
    case ProbeFailure => if s.level == Recovering then Degrade(cycles, BrokenL2) else s
    case Restore => if s.level == Safe then Recover(s) else s
    case RtcOk => s.(direct := 0, rtc := 0)
  }

  /** What holds of every state the inputs can reach. */
  predicate Sane(s: State) {
    && Fits(s) && s.level != Undefined && s.healthy < PERSIST
    && (s.level == Normal ==> s.cooldown == 0)
    && (s.level != Recovering ==> !s.probe && s.healthy == 0)
    && (s.healthy != 0 ==> s.cooldown == 0)
  }

  lemma NextSane(cycles: int, s: State, input: Input)
    requires Sane(s) && 0 <= cycles <= COOLDOWN_MAX
    ensures Sane(Next(cycles, s, input))
  {
  }

  function Apply(cycles: int, inputs: seq<Input>): State {
    if inputs == [] then START else Next(cycles, Apply(cycles, inputs[..|inputs| - 1]), inputs[|inputs| - 1])
  }

  lemma {:induction false} ReachableSane(cycles: int, inputs: seq<Input>)
    requires 0 <= cycles <= COOLDOWN_MAX
    ensures Sane(Apply(cycles, inputs))
  {
    if inputs != [] {
      ReachableSane(cycles, inputs[..|inputs| - 1]);
      NextSane(cycles, Apply(cycles, inputs[..|inputs| - 1]), inputs[|inputs| - 1]);
    }
  }

  predicate HealthyWindowPassed(w: int) {
    var s := Unpack(w);
    s.level == Normal || (s.level == Recovering && s.healthy >= PERSIST)
  }

  // ---- many threads ---------------------------------------------------------------------

  /** The transformation of the word that one input asks for. */
  function Updater(cycles: int): (int, Input) -> int {
    (w, input) => Pack(Next(cycles, Unpack(w), input))
  }

  function Inputs(log: seq<CasLoop.Entry<Input>>): seq<Input> {
    if log == [] then [] else Inputs(log[..|log| - 1]) + [log[|log| - 1].input]
  }

  /** On the words, the inputs do what they do on the states. */
  lemma {:induction false} SequentialIsApply(cycles: int, log: seq<CasLoop.Entry<Input>>)
    requires 0 <= cycles <= COOLDOWN_MAX
    ensures CasLoop.Sequential(Updater(cycles), Pack(START), log) == Pack(Apply(cycles, Inputs(log)))
  {
    if log != [] {
      var front, inputs := log[..|log| - 1], Inputs(log);
      SequentialIsApply(cycles, front);
      assert inputs[..|inputs| - 1] == Inputs(front);
      ReachableSane(cycles, Inputs(front));
      UnpackOfPack(Apply(cycles, Inputs(front)));
    }
  }

  /** Every word that any interleaving of the threads produces packs the state that the effective
      inputs reach one after the other. In it the healthy windows have passed exactly at level
      Normal, and Normal has no cooldown left. */
  lemma ReachableWords(cycles: int, schedule: seq<CasLoop.Label<Input>>)
    requires 0 <= cycles <= COOLDOWN_MAX
    ensures var s := CasLoop.Run(Updater(cycles), Pack(START), schedule);
            && Unpack(s.word) == Apply(cycles, Inputs(s.log))
            && (HealthyWindowPassed(s.word) <==> Unpack(s.word).level == Normal)
            && (Unpack(s.word).level == Normal ==> Unpack(s.word).cooldown == 0)
  {
    var s := CasLoop.Run(Updater(cycles), Pack(START), schedule);
    CasLoop.UpdatesAreSequential(Updater(cycles), Pack(START), schedule);
    SequentialIsApply(cycles, s.log);
    ReachableSane(cycles, Inputs(s.log));
    UnpackOfPack(Apply(cycles, Inputs(s.log)));
  }
}
