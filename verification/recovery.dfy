/** What the circuit breaker has been through whenever it is back at level Normal
    (include/coact/monitor.hpp). */
module Recovery {
  import opened Breaker

  predicate Broken(s: State) {
    s.level.BrokenL1? || s.level.BrokenL2? || s.level.Safe?
  }

  /** An input that a recovery must not see. */
  predicate Bad(input: Input) {
    || input.DirectTimeout? || input.RtcTimeout? || input.Overflow? || input.ReserveExhausted?
    || input.Watchdog? || input.ProbeFailure? || (input.Watermark? && input.percent >= 50)
  }

  /** `states[i]` is the state before input i; the run starts at Normal. */
  ghost predicate RunOf(cycles: int, inputs: seq<Input>, states: seq<State>) {
    && 0 <= cycles <= COOLDOWN_MAX
    && |states| == |inputs| + 1
    && states[0] == START
    && forall i :: 0 <= i < |inputs| ==> states[i + 1] == Next(cycles, states[i], inputs[i])
  }

  // ---- one input ------------------------------------------------------------------------

  /** The move enters L1, L2 or Safe. */
  predicate Breaks(s: State, t: State) {
    Broken(t) && t.level != s.level
  }

  /** How one input can change the level. */
  predicate LevelMove(s: State, input: Input, t: State) {
    && (s.level == Normal ==> t.level == Normal || Broken(t))
    && (Broken(s) ==> Broken(t) || t.level == Recovering)
    && (s.level == Recovering ==> t.level == Recovering || Broken(t) || t.level == Normal)
    && (s.level == Safe && t.level != Safe ==> input.Restore? && t.level == Recovering)
    && (s.level == Recovering && Bad(input) ==> Broken(t))
    && (Breaks(s, t) ==> Bad(input))
  }

  /** Degrading restarts the cooldown; otherwise a cycle takes one off as long as there is one. */
  predicate CooldownMove(cycles: int, s: State, input: Input, t: State) {
    if Breaks(s, t) then t.cooldown == cycles
    else t.cooldown == if input.Cycle? && s.cooldown > 0 then s.cooldown - 1 else s.cooldown
  }

  /** The input closes a healthy window: a cycle after a probe, with the cooldown run out. */
  predicate Closes(s: State, input: Input, t: State) {
    input.Cycle? && s.probe && t.cooldown == 0
  }

  /** How one input changes the probe flag and the window count, and when it returns to Normal. */
  predicate WindowMove(s: State, input: Input, t: State) {
    && (t.level == Recovering && s.level != Recovering ==> t.healthy == 0 && !t.probe)
    && (t.level == Recovering && s.level == Recovering ==>
          && t.healthy == (if Closes(s, input, t) then s.healthy + 1 else s.healthy)
          && t.probe == (!Closes(s, input, t) && (s.probe || input.ProbeSuccess?)))
    && (s.level == Recovering ==> (t.level == Normal <==> Closes(s, input, t) && s.healthy == PERSIST - 1))
  }

  predicate Move(cycles: int, s: State, input: Input, t: State) {
    s.level != Undefined && LevelMove(s, input, t) && CooldownMove(cycles, s, input, t) && WindowMove(s, input, t)
  }

  lemma NextMoves(cycles: int, s: State, input: Input)
    requires Sane(s)
    ensures Move(cycles, s, input, Next(cycles, s, input))
  {
  }

  lemma {:induction false} RunMoves(cycles: int, inputs: seq<Input>, states: seq<State>, n: nat)
    requires RunOf(cycles, inputs, states) && n <= |inputs|
    ensures Sane(states[n])
    ensures forall i :: 0 <= i < n ==> Move(cycles, states[i], inputs[i], states[i + 1])
    decreases n
  {
    if n != 0 {
      RunMoves(cycles, inputs, states, n - 1);
      NextSane(cycles, states[n - 1], inputs[n - 1]);
      NextMoves(cycles, states[n - 1], inputs[n - 1]);
      assert states[n - 1 + 1] == Next(cycles, states[n - 1], inputs[n - 1]);
    }
  }

  // ---- the history of a recovery --------------------------------------------------------

  ghost predicate Moves(cycles: int, inputs: seq<Input>, states: seq<State>) {
    && |states| == |inputs| + 1
    && states[0].level == Normal
    && forall i :: 0 <= i < |inputs| ==> Move(cycles, states[i], inputs[i], states[i + 1])
  }

  /** Dispatch cycles among inputs[lo..hi]. */
  function Cycles(inputs: seq<Input>, lo: nat, hi: nat): nat
    requires lo <= hi <= |inputs|
    decreases hi
  {
    if lo == hi then 0 else Cycles(inputs, lo, hi - 1) + (if inputs[hi - 1].Cycle? then 1 else 0)
  }

  /** Input b entered L1, L2 or Safe, and no input after it and before n did so again. */
  predicate LastBroke(states: seq<State>, b: nat, n: nat) {
    && b < n < |states|
    && Breaks(states[b], states[b + 1])
    && forall j :: b < j < n ==> !Breaks(states[j], states[j + 1])
  }

  /** Input e led from L1, L2 or Safe to Recovering, where the breaker has stayed up to state n. */
  predicate RecoveringSince(states: seq<State>, e: nat, n: nat) {
    && e < n < |states|
    && Broken(states[e])
    && forall j :: e < j <= n ==> states[j].level == Recovering
  }

  /** One healthy window: a successful probe at input `probe`, then a dispatch cycle at `cycle`. */
  datatype Window = Window(probe: nat, cycle: nat)

  /** Since input b at least `cycles` dispatch cycles have passed, input j included. */
  predicate Cooled(cycles: int, inputs: seq<Input>, b: nat, j: nat)
    requires b < j < |inputs|
  {
    Cycles(inputs, b + 1, j + 1) >= cycles
  }

  /** The windows are distinct, one after the other, all between inputs e and n, and closed after
      the cooldown that began at b. */
  predicate Windows(cycles: int, inputs: seq<Input>, windows: seq<Window>, b: nat, e: nat, n: nat) {
    && n <= |inputs| && b < e
    && (forall k :: 0 <= k < |windows| ==>
          && e < windows[k].probe < windows[k].cycle < n
          && inputs[windows[k].probe].ProbeSuccess? && inputs[windows[k].cycle].Cycle?
          && Cooled(cycles, inputs, b, windows[k].cycle))
    && (forall k :: 0 < k < |windows| ==> windows[k - 1].cycle < windows[k].probe)
  }

  function WindowsEnd(windows: seq<Window>, e: nat): int {
    if windows == [] then e else windows[|windows| - 1].cycle
  }

  lemma WindowsSnoc(cycles: int, inputs: seq<Input>, windows: seq<Window>, b: nat, e: nat, n: nat, probe: nat)
    requires Windows(cycles, inputs, windows, b, e, n) && n < |inputs| && inputs[n].Cycle? && e < n
    requires WindowsEnd(windows, e) < probe < n && inputs[probe].ProbeSuccess? && Cooled(cycles, inputs, b, n)
    ensures Windows(cycles, inputs, windows + [Window(probe, n)], b, e, n + 1)
  {
  }

  /** Away from Normal the cooldown is what the cycles since the last degradation leave of it. */
  lemma {:induction false} CooldownSince(cycles: int, inputs: seq<Input>, states: seq<State>, n: nat) returns (b: nat)
    requires Moves(cycles, inputs, states) && n <= |inputs| && states[n].level != Normal && cycles >= 0
    ensures LastBroke(states, b, n)
    ensures states[n].cooldown == Remaining(cycles, Cycles(inputs, b + 1, n))
    decreases n
  {
    assert Move(cycles, states[n - 1], inputs[n - 1], states[n - 1 + 1]);
    if Breaks(states[n - 1], states[n]) {
      b := n - 1;
    } else {
      b := CooldownSince(cycles, inputs, states, n - 1);
    }
  }

  function Remaining(cycles: int, passed: int): int {
    if passed < cycles then cycles - passed else 0
  }

  lemma LastBrokeUnique(states: seq<State>, b: nat, b': nat, n: nat)
    requires LastBroke(states, b, n) && LastBroke(states, b', n)
    ensures b == b'
  {
  }

  /** While recovering, the cooldown has run out after a step exactly when the cycles say so. */
  lemma CooldownIsCooled(cycles: int, inputs: seq<Input>, states: seq<State>, b: nat, n: nat)
    requires Moves(cycles, inputs, states) && n < |inputs| && cycles >= 0
    requires states[n].level == Recovering && LastBroke(states, b, n) && !Breaks(states[n], states[n + 1])
    ensures states[n + 1].cooldown == 0 <==> Cooled(cycles, inputs, b, n)
  {
    var b' := CooldownSince(cycles, inputs, states, n);
    LastBrokeUnique(states, b, b', n);
    assert Move(cycles, states[n], inputs[n], states[n + 1]);
  }

  /** The last degradation of a state was also the last one of every state since Recovering began. */
  lemma BrokeBefore(states: seq<State>, b: nat, e: nat, m: nat, n: nat)
    requires LastBroke(states, b, n) && RecoveringSince(states, e, n) && e < m <= n
    ensures b < e && LastBroke(states, b, m)
  {
    assert states[b + 1].level != Recovering;
  }

  /** In Recovering every healthy window counted, and the probe flag, has its inputs, and no bad
      input has come since Recovering was entered. */
  lemma {:induction false} WindowsSince(cycles: int, inputs: seq<Input>, states: seq<State>, b: nat, n: nat)
    returns (e: nat, windows: seq<Window>, probe: nat)
    requires Moves(cycles, inputs, states) && n <= |inputs| && states[n].level == Recovering && cycles >= 0
    requires LastBroke(states, b, n)
    ensures RecoveringSince(states, e, n)
    ensures forall j :: e < j < n ==> !Bad(inputs[j])
    ensures Windows(cycles, inputs, windows, b, e, n) && |windows| == states[n].healthy
    ensures states[n].probe ==> WindowsEnd(windows, e) < probe < n && inputs[probe].ProbeSuccess?
    decreases n
  {
    assert Move(cycles, states[n - 1], inputs[n - 1], states[n - 1 + 1]);
    if states[n - 1].level != Recovering {
      e, windows, probe := n - 1, [], 0;
      assert states[b + 1].level != Recovering;
    } else {
      assert LastBroke(states, b, n - 1) by {
        assert states[b + 1].level != Recovering;
      }
      e, windows, probe := WindowsSince(cycles, inputs, states, b, n - 1);
      if states[n].healthy != states[n - 1].healthy {
        CooldownIsCooled(cycles, inputs, states, b, n - 1);
        WindowsSnoc(cycles, inputs, windows, b, e, n - 1, probe);
        windows := windows + [Window(probe, n - 1)];
      }
      if inputs[n - 1].ProbeSuccess? {
        probe := n - 1;
      }
    }
  }

  /** Every window lies before the last. */
  lemma {:induction false} EndsBefore(cycles: int, inputs: seq<Input>, windows: seq<Window>, b: nat, e: nat, n: nat)
    requires Windows(cycles, inputs, windows, b, e, n)
    ensures forall k :: 0 <= k < |windows| - 1 ==> windows[k].cycle < windows[|windows| - 1].probe
    decreases |windows|
  {
    if |windows| > 1 {
      var m := |windows| - 1;
      EndsBefore(cycles, inputs, windows[..m], b, e, n);
      assert windows[m - 1].cycle < windows[m].probe;
      forall k | 0 <= k < m ensures windows[k].cycle < windows[m].probe {
        assert k < m - 1 ==> windows[..m][k].cycle < windows[..m][m - 1].probe;
      }
    }
  }

  /** Without its last window, closed just now, a choice of windows was there one input ago. */
  lemma WindowsFront(cycles: int, inputs: seq<Input>, windows: seq<Window>, b: nat, e: nat, n: nat)
    requires Windows(cycles, inputs, windows, b, e, n) && windows != [] && windows[|windows| - 1].cycle == n - 1
    ensures Windows(cycles, inputs, windows[..|windows| - 1], b, e, n - 1)
    ensures WindowsEnd(windows[..|windows| - 1], e) < windows[|windows| - 1].probe
  {
    EndsBefore(cycles, inputs, windows, b, e, n);
  }

  lemma WindowsEarlier(cycles: int, inputs: seq<Input>, windows: seq<Window>, b: nat, e: nat, n: nat)
    requires Windows(cycles, inputs, windows, b, e, n) && e < n - 1
    requires windows != [] ==> windows[|windows| - 1].cycle != n - 1
    ensures Windows(cycles, inputs, windows, b, e, n - 1)
  {
    EndsBefore(cycles, inputs, windows, b, e, n);
  }

  /** What input n-1 did to a breaker that has been recovering since e. */
  lemma RecoveringStep(cycles: int, inputs: seq<Input>, states: seq<State>, b: nat, e: nat, n: nat)
    requires Moves(cycles, inputs, states) && n <= |inputs| && cycles >= 0
    requires RecoveringSince(states, e, n) && LastBroke(states, b, n) && e < n - 1
    ensures RecoveringSince(states, e, n - 1) && LastBroke(states, b, n - 1) && b < n - 1
    ensures var closed := inputs[n - 1].Cycle? && states[n - 1].probe && Cooled(cycles, inputs, b, n - 1);
            && states[n].healthy == states[n - 1].healthy + (if closed then 1 else 0)
            && states[n].probe == (!closed && (states[n - 1].probe || inputs[n - 1].ProbeSuccess?))
  {
    assert Move(cycles, states[n - 1], inputs[n - 1], states[n - 1 + 1]);
    assert states[n - 1].level == Recovering && states[n].level == Recovering;
    BrokeBefore(states, b, e, n - 1, n);
    CooldownIsCooled(cycles, inputs, states, b, n - 1);
  }

  lemma RecoveringBegins(cycles: int, inputs: seq<Input>, states: seq<State>, e: nat)
    requires Moves(cycles, inputs, states) && e < |inputs| && RecoveringSince(states, e, e + 1)
    ensures states[e + 1].healthy == 0
  {
    assert Move(cycles, states[e], inputs[e], states[e + 1]);
  }

  /** A window takes two inputs. */
  lemma WindowTakesTwo(cycles: int, inputs: seq<Input>, windows: seq<Window>, b: nat, e: nat, n: nat)
    requires Windows(cycles, inputs, windows, b, e, n)
    ensures |windows| > 0 ==> e + 2 <= windows[|windows| - 1].cycle < n
  {
  }

  /** No choice of windows has more than were counted, and one that has as many and is followed by
      a probe has raised the probe flag. */
  lemma {:induction false} WindowsCounted(
      cycles: int, inputs: seq<Input>, states: seq<State>, b: nat, e: nat, n: nat, windows: seq<Window>, probe: nat)
    requires Moves(cycles, inputs, states) && n <= |inputs| && cycles >= 0
    requires RecoveringSince(states, e, n) && LastBroke(states, b, n) && Windows(cycles, inputs, windows, b, e, n)
    ensures |windows| <= states[n].healthy
    ensures |windows| == states[n].healthy && WindowsEnd(windows, e) < probe < n && inputs[probe].ProbeSuccess? ==>
              states[n].probe
    decreases n
  {
    if n - 1 == e {
      RecoveringBegins(cycles, inputs, states, e);
      WindowTakesTwo(cycles, inputs, windows, b, e, n);
    } else {
      RecoveringStep(cycles, inputs, states, b, e, n);
      if windows != [] && windows[|windows| - 1].cycle == n - 1 {
        WindowsFront(cycles, inputs, windows, b, e, n);
        WindowsCounted(cycles, inputs, states, b, e, n - 1, windows[..|windows| - 1], windows[|windows| - 1].probe);
      } else {
        WindowsEarlier(cycles, inputs, windows, b, e, n);
        WindowsCounted(cycles, inputs, states, b, e, n - 1, windows, probe);
      }
    }
  }

  /** Whenever an input brings the breaker back to Normal: it comes from Recovering, entered from
      a broken level; at least the configured number of dispatch cycles has passed since the last
      entry to L1, L2 or Safe; and since Recovering was entered there have been three distinct
      probe-then-cycle windows, closed after the cooldown, and no timeout, overflow, watchdog,
      exhausted reserve, failed probe or watermark of 50 percent or more. */
  lemma ReturnToNormal(cycles: int, inputs: seq<Input>, states: seq<State>, n: nat)
    returns (b: nat, e: nat, windows: seq<Window>)
    requires RunOf(cycles, inputs, states) && n < |inputs|
    requires states[n].level != Normal && states[n + 1].level == Normal
    ensures LastBroke(states, b, n + 1) && b < e && RecoveringSince(states, e, n)
    ensures Cycles(inputs, b + 1, n + 1) >= cycles
    ensures forall j :: e < j <= n ==> !Bad(inputs[j])
    ensures Windows(cycles, inputs, windows, b, e, n + 1) && |windows| == 3 && windows[2].cycle == n
  {
    RunMoves(cycles, inputs, states, |inputs|);
    assert Move(cycles, states[n], inputs[n], states[n + 1]);
    b := CooldownSince(cycles, inputs, states, n);
    var probe;
    e, windows, probe := WindowsSince(cycles, inputs, states, b, n);
    CooldownIsCooled(cycles, inputs, states, b, n);
    WindowsSnoc(cycles, inputs, windows, b, e, n, probe);
    windows := windows + [Window(probe, n)];
  }

  /** And exactly then: a recovering breaker returns to Normal at input n if and only if three
      distinct probe-then-cycle windows, closed after the cooldown, lie between its entry to
      Recovering and n, the last closed by input n. */
  lemma ReturnsExactly(cycles: int, inputs: seq<Input>, states: seq<State>, b: nat, e: nat, n: nat)
    requires RunOf(cycles, inputs, states) && n < |inputs|
    requires RecoveringSince(states, e, n) && LastBroke(states, b, n)
    ensures states[n + 1].level == Normal <==>
              exists windows: seq<Window> :: |windows| == 3 && windows[2].cycle == n && Windows(cycles, inputs, windows, b, e, n + 1)
  {
    RunMoves(cycles, inputs, states, |inputs|);
    assert Move(cycles, states[n], inputs[n], states[n + 1]);
    if states[n + 1].level == Normal {
      var b', e', windows := ReturnToNormal(cycles, inputs, states, n);
      assert LastBroke(states, b', n) by {
        assert states[b' + 1].level != Recovering;
      }
      LastBrokeUnique(states, b, b', n);
      SinceUnique(states, e, e', n);
      assert Windows(cycles, inputs, windows, b, e, n + 1);
    } else if windows: seq<Window> :| |windows| == 3 && windows[2].cycle == n && Windows(cycles, inputs, windows, b, e, n + 1) {
      ThirdWindowReturns(cycles, inputs, states, b, e, n, windows);
    }
  }

  lemma SinceUnique(states: seq<State>, e: nat, e': nat, n: nat)
    requires RecoveringSince(states, e, n) && RecoveringSince(states, e', n)
    ensures e == e'
  {
  }

  lemma ThirdWindowReturns(
      cycles: int, inputs: seq<Input>, states: seq<State>, b: nat, e: nat, n: nat, windows: seq<Window>)
    requires RunOf(cycles, inputs, states) && n < |inputs|
    requires RecoveringSince(states, e, n) && LastBroke(states, b, n)
    requires |windows| == 3 && windows[2].cycle == n && Windows(cycles, inputs, windows, b, e, n + 1)
    ensures states[n + 1].level == Normal
  {
    RunMoves(cycles, inputs, states, |inputs|);
    RunMoves(cycles, inputs, states, n);
    assert Move(cycles, states[n], inputs[n], states[n + 1]);
    var front := windows[..2];
    assert windows[1].cycle < windows[2].probe && windows[0].cycle < windows[1].probe;
    WindowsCounted(cycles, inputs, states, b, e, n, front, windows[2].probe);
    CooldownIsCooled(cycles, inputs, states, b, n);
  }

  /** Safe is left only by the external restore, and only to Recovering. */
  lemma SafeLeavesByRestore(cycles: int, inputs: seq<Input>, states: seq<State>, n: nat)
    requires RunOf(cycles, inputs, states) && n < |inputs|
    requires states[n].level == Safe && states[n + 1].level != Safe
    ensures inputs[n].Restore? && states[n + 1].level == Recovering
  {
    RunMoves(cycles, inputs, states, |inputs|);
    assert Move(cycles, states[n], inputs[n], states[n + 1]);
  }
}
