/** Exactly when the circuit breaker changes level, in terms of the inputs it has seen
    (include/coact/monitor.hpp). */
module Degradation {
  import opened Breaker
  import opened Recovery

  /** Entering L1, L2, Safe or Recovering forgets what has been counted. */
  predicate Forgets(s: State, t: State) {
    t.level != s.level && t.level != Normal
  }

  /** How many inputs among the first n have hit since the last that cleared, or since the
      breaker last forgot. */
  function Streak(inputs: seq<Input>, states: seq<State>, hit: Input -> bool, clear: Input -> bool, n: nat): nat
    requires n <= |inputs| && |states| == |inputs| + 1
  {
    if n == 0 || Forgets(states[n - 1], states[n]) || clear(inputs[n - 1]) then 0
    else Streak(inputs, states, hit, clear, n - 1) + (if hit(inputs[n - 1]) then 1 else 0)
  }

  function Capped(n: nat): int {
    if n < PERSIST then n else PERSIST
  }

  function DirectTimeouts(inputs: seq<Input>, states: seq<State>, n: nat): nat
    requires n <= |inputs| && |states| == |inputs| + 1
  {
    Streak(inputs, states, (i: Input) => i.DirectTimeout?, (i: Input) => i.RtcOk?, n)
  }

  function RtcTimeouts(inputs: seq<Input>, states: seq<State>, n: nat): nat
    requires n <= |inputs| && |states| == |inputs| + 1
  {
    Streak(inputs, states, (i: Input) => i.RtcTimeout?, (i: Input) => i.RtcOk?, n)
  }

  function HighMarks(inputs: seq<Input>, states: seq<State>, n: nat): nat
    requires n <= |inputs| && |states| == |inputs| + 1
  {
    Streak(inputs, states, (i: Input) => i.Watermark? && i.percent > 80, (i: Input) => i.Watermark? && i.percent <= 80, n)
  }

  function LowMarks(inputs: seq<Input>, states: seq<State>, n: nat): nat
    requires n <= |inputs| && |states| == |inputs| + 1
  {
    Streak(inputs, states, (i: Input) => i.Watermark? && i.percent < 50, (i: Input) => i.Watermark? && i.percent >= 50, n)
  }

  /** What one input makes of the counters. */
  predicate CountersMove(s: State, input: Input, t: State) {
    && t.direct == (if Forgets(s, t) || input.RtcOk? then 0 else if input.DirectTimeout? then Increment(s.direct) else s.direct)
    && t.rtc == (if Forgets(s, t) || input.RtcOk? then 0 else if input.RtcTimeout? then Increment(s.rtc) else s.rtc)
    && t.high == (if Forgets(s, t) then 0
                  else if !input.Watermark? then s.high else if input.percent > 80 then Increment(s.high) else 0)
    && t.low == (if Forgets(s, t) then 0
                 else if !input.Watermark? then s.low else if input.percent < 50 then Increment(s.low) else 0)
  }

  lemma NextCounters(cycles: int, s: State, input: Input)
    requires Sane(s)
    ensures CountersMove(s, input, Next(cycles, s, input))
  {
  }

  /** Every counter of a run holds its streak, up to three. */
  lemma {:induction false} CountersAreStreaks(cycles: int, inputs: seq<Input>, states: seq<State>, n: nat)
    requires RunOf(cycles, inputs, states) && n <= |inputs|
    ensures states[n].direct == Capped(DirectTimeouts(inputs, states, n))
    ensures states[n].rtc == Capped(RtcTimeouts(inputs, states, n))
    ensures states[n].high == Capped(HighMarks(inputs, states, n))
    ensures states[n].low == Capped(LowMarks(inputs, states, n))
    decreases n
  {
    if n != 0 {
      CountersAreStreaks(cycles, inputs, states, n - 1);
      RunMoves(cycles, inputs, states, n - 1);
      NextCounters(cycles, states[n - 1], inputs[n - 1]);
      assert states[n - 1 + 1] == Next(cycles, states[n - 1], inputs[n - 1]);
    }
  }

  /** When the level changes, in terms of the state before. */
  predicate LevelExact(s: State, input: Input, t: State) {
    && (t.level == BrokenL1 && s.level != BrokenL1 <==> s.level == Normal && input.DirectTimeout? && s.direct >= 2)
    && (t.level == BrokenL2 && s.level != BrokenL2 <==>
          || ((s.level == Normal || s.level == BrokenL1) &&
              (input.Overflow? || (input.RtcTimeout? && s.rtc >= 2) ||
               (input.Watermark? && input.percent > 80 && s.high >= 2)))
          || (s.level == Recovering && Bad(input) && !input.ReserveExhausted? && !input.Watchdog?))
    && (t.level == Safe && s.level != Safe <==> s.level != Safe && (input.ReserveExhausted? || input.Watchdog?))
    && (t.level == Recovering && s.level != Recovering <==>
          || (s.level == Safe && input.Restore?)
          || ((s.level == BrokenL1 || s.level == BrokenL2) && s.cooldown == 0 &&
              input.Watermark? && input.percent < 50 && s.low >= 2))
    && (t.level == Normal && s.level != Normal <==>
          s.level == Recovering && input.Cycle? && s.probe && s.healthy == 2 && s.cooldown <= 1)
  }

  lemma NextLevel(cycles: int, s: State, input: Input)
    requires Sane(s)
    ensures LevelExact(s, input, Next(cycles, s, input))
  {
  }

  /** L1 is entered exactly at the third direct timeout in a row at Normal. L2 is entered exactly
      at an overflow, the third dispatcher timeout or the third high watermark in a row at Normal
      or L1, or at a bad input while recovering. Safe is entered exactly at an exhausted reserve or
      a watchdog. Recovering is entered exactly by the restore from Safe, or at the third low
      watermark in a row once the cooldown has run out. */
  lemma LevelChangesExactly(cycles: int, inputs: seq<Input>, states: seq<State>, n: nat)
    requires RunOf(cycles, inputs, states) && n < |inputs|
    ensures var s, t, input := states[n], states[n + 1], inputs[n];
            && (t.level == BrokenL1 && s.level != BrokenL1 <==>
                  s.level == Normal && input.DirectTimeout? && DirectTimeouts(inputs, states, n) >= 2)
            && (t.level == BrokenL2 && s.level != BrokenL2 <==>
                  || ((s.level == Normal || s.level == BrokenL1) &&
                      (input.Overflow? || (input.RtcTimeout? && RtcTimeouts(inputs, states, n) >= 2) ||
                       (input.Watermark? && input.percent > 80 && HighMarks(inputs, states, n) >= 2)))
                  || (s.level == Recovering && Bad(input) && !input.ReserveExhausted? && !input.Watchdog?))
            && (t.level == Safe && s.level != Safe <==> s.level != Safe && (input.ReserveExhausted? || input.Watchdog?))
            && (t.level == Recovering && s.level != Recovering <==>
                  || (s.level == Safe && input.Restore?)
                  || ((s.level == BrokenL1 || s.level == BrokenL2) && s.cooldown == 0 &&
                      input.Watermark? && input.percent < 50 && LowMarks(inputs, states, n) >= 2))
  {
    CountersAreStreaks(cycles, inputs, states, n);
    RunMoves(cycles, inputs, states, n);
    NextLevel(cycles, states[n], inputs[n]);
  }
}
