/**
  The adaptive controller of photosensor_monitor_brightness.py: pulse
  primitives, the user-adjustment session, the power-state detector and one
  step of the main loop, over the program's global state.
 */
module MonitorController {
  import opened Wrappers
  import opened Ints
  import opened Pulses
  import opened BrightnessMap

  /** Power-sense readings above this mean the monitor is on. */
  const POWER_THRESHOLD: int := 700
  /** Minimum change of the light reading before the automatic path acts again. */
  const HYSTERESIS: int := 50
  /** Brightness change per onboard button press, and the session's upper guard. */
  const STEP: int := 5
  const MAX_BRIGHT: int := 100
  /** How long the Down line is held to drive the monitor to brightness 0. */
  const RESET_HOLD_MS: nat := 6500

  /** Presses `pin` `count` times, each held `pressDuration` ms, with GAP_MS low after each. */
  method PressButton(pin: Pin, count: int, pressDuration: nat) returns (emitted: seq<Pulse>)
    ensures |emitted| == (if count > 0 then count else 0)
    ensures forall k :: 0 <= k < |emitted| ==> emitted[k] == Pulse(pin, pressDuration, GAP_MS)
    ensures emitted == Presses(pin, count, pressDuration)
  {
    emitted := [];
    var i := 0;
    while i < count
      invariant 0 <= i
      invariant count > 0 ==> i <= count
      invariant count <= 0 ==> i == 0
      invariant |emitted| == i
      invariant forall k :: 0 <= k < i ==> emitted[k] == Pulse(pin, pressDuration, GAP_MS)
    {
      emitted := emitted + [Pulse(pin, pressDuration, GAP_MS)];
      i := i + 1;
    }
  }

  /** Changes brightness by `increment` menu steps, opening and closing the menu when `enterExitMenu`. */
  method ChangeBrightness(increment: int, enterExitMenu: bool) returns (emitted: seq<Pulse>)
    ensures |emitted| == Abs(increment) + (if enterExitMenu then 2 else 0)
    ensures emitted == ChangePulses(increment, enterExitMenu)
  {
    emitted := [];
    if enterExitMenu {
      var enter := PressButton(Pin12, 1, PRESS_MS);
      emitted := emitted + enter;
    }
    if increment < 0 {
      var down := PressButton(Pin8, -increment, PRESS_MS);
      emitted := emitted + down;
    } else {
      var up := PressButton(Pin12, increment, PRESS_MS);
      emitted := emitted + up;
    }
    if enterExitMenu {
      var exit := PressButton(Pin16, 1, PRESS_MS);
      emitted := emitted + exit;
    }
  }

  /** Calibration: open the menu, hold Down long enough to reach 0, close the menu. */
  const RESET_TRACE: seq<Pulse> :=
    [Pulse(Pin12, PRESS_MS, GAP_MS), Pulse(Pin8, RESET_HOLD_MS, GAP_MS), Pulse(Pin16, PRESS_MS, GAP_MS)]

  method ResetToZero() returns (emitted: seq<Pulse>)
    ensures emitted == RESET_TRACE
  {
    var enter := PressButton(Pin12, 1, PRESS_MS);
    var hold := PressButton(Pin8, 1, RESET_HOLD_MS);
    var exit := PressButton(Pin16, 1, PRESS_MS);
    emitted := enter + hold + exit;
  }

  // ---------------------------------------------------------------------------
  // The user-adjustment session. Each poll of the onboard buttons yields a
  // batch (A presses, B presses); the end of the batch sequence is the 3 s
  // idle timeout.

  /** Whether one batch is acted on: A presses while above 0, or B presses while below 100. */
  predicate Applies(nb: int, a: nat, b: nat)
  {
    (a > 0 && nb > 0) || (b > 0 && nb < MAX_BRIGHT)
  }

  /** The running brightness after one batch: the whole `5*b - 5*a` change when the batch applies. */
  function AdjustStep(nb: int, a: nat, b: nat): (r: int)
    ensures a == 0 && b == 0 ==> r == nb
    ensures nb <= 0 && b == 0 ==> r == nb
    ensures nb >= MAX_BRIGHT && a == 0 ==> r == nb
    ensures r != nb ==> (r - nb) % STEP == 0 && Applies(nb, a, b)
  {
    if Applies(nb, a, b) then nb + (-STEP * a) + (STEP * b) else nb
  }

  /** The brightness a session starting at `nb` ends with. */
  function Adjusted(nb: int, batches: seq<(nat, nat)>): int
    decreases |batches|
  {
    if batches == [] then nb
    else Adjusted(AdjustStep(nb, batches[0].0, batches[0].1), batches[1..])
  }

  /** The directional pulses a session emits, one menu-less change per applied batch. */
  function SessionPulses(nb: int, batches: seq<(nat, nat)>): seq<Pulse>
    decreases |batches|
  {
    if batches == [] then []
    else
      var a, b := batches[0].0, batches[0].1;
      (if Applies(nb, a, b) then ChangePulses(-STEP * a + STEP * b, false) else [])
      + SessionPulses(AdjustStep(nb, a, b), batches[1..])
  }

  /** All a session emits: open the menu, the adjustments, close the menu. */
  function SessionTrace(nb: int, batches: seq<(nat, nat)>): seq<Pulse>
  {
    Presses(Pin12, 1, PRESS_MS) + SessionPulses(nb, batches) + Presses(Pin16, 1, PRESS_MS)
  }

  /** One poll of the session: how the rest of the session continues from batch `i`. */
  lemma SessionStep(nb: int, batches: seq<(nat, nat)>, i: nat)
    requires i < |batches|
    ensures var a, b := batches[i].0, batches[i].1;
      && Adjusted(nb, batches[i..]) == Adjusted(AdjustStep(nb, a, b), batches[i + 1..])
      && SessionPulses(nb, batches[i..])
         == (if Applies(nb, a, b) then ChangePulses(-STEP * a + STEP * b, false) else [])
            + SessionPulses(AdjustStep(nb, a, b), batches[i + 1..])
  {
    assert batches[i..][1..] == batches[i + 1..];
  }

  /** The polling loop of a session started at `nb0`: the final brightness and the pulses of its adjustments. */
  method SessionLoop(nb0: int, batches: seq<(nat, nat)>) returns (nb: int, emitted: seq<Pulse>)
    ensures nb == Adjusted(nb0, batches)
    ensures emitted == SessionPulses(nb0, batches)
  {
    nb := nb0;
    emitted := [];
    var i := 0;
    while i < |batches|
      invariant 0 <= i <= |batches|
      invariant Adjusted(nb0, batches) == Adjusted(nb, batches[i..])
      invariant SessionPulses(nb0, batches) == emitted + SessionPulses(nb, batches[i..])
    {
      var a, b := batches[i].0, batches[i].1;
      SessionStep(nb, batches, i);
      ghost var next := AdjustStep(nb, a, b);
      ghost var here: seq<Pulse> := if Applies(nb, a, b) then ChangePulses(-STEP * a + STEP * b, false) else [];
      ghost var before := emitted;
      if (a > 0 && nb > 0) || (b > 0 && nb < MAX_BRIGHT) {
        var change := (-STEP * a) + (STEP * b);
        nb := nb + change;
        var p := ChangeBrightness(change, false);
        emitted := emitted + p;
      }
      assert nb == next && emitted == before + here;
      Associate(before, here, SessionPulses(next, batches[i + 1..]));
      i := i + 1;
    }
    assert batches[i..] == [];
  }

  /**
    Regrouping of a concatenation. Dafny knows this fact; calling it at one
    point of the session loop only keeps that loop's proof within its resource budget.
   */
  lemma Associate(a: seq<Pulse>, b: seq<Pulse>, c: seq<Pulse>)
    ensures a + (b + c) == (a + b) + c
  {
  }

  /** A session without button activity returns the brightness unchanged and only opens and closes the menu. */
  lemma {:induction false} IdleSession(nb: int, batches: seq<(nat, nat)>)
    requires forall i :: 0 <= i < |batches| ==> batches[i] == (0, 0)
    ensures Adjusted(nb, batches) == nb
    ensures SessionPulses(nb, batches) == []
    decreases |batches|
  {
    if batches != [] {
      IdleSession(nb, batches[1..]);
    }
  }

  /** A session moves brightness only in steps of 5. */
  lemma {:induction false} AdjustedKeepsStep(nb: int, batches: seq<(nat, nat)>)
    ensures (Adjusted(nb, batches) - nb) % STEP == 0
    decreases |batches|
  {
    if batches != [] {
      var next := AdjustStep(nb, batches[0].0, batches[0].1);
      AdjustedKeepsStep(next, batches[1..]);
    }
  }

  /**
    The guards keep brightness in [0, 100] if presses are read one at a time:
    a multiple of 5 in range stays in range when every batch holds at most one press.
   */
  lemma {:induction false} SinglePressesStayInRange(nb: int, batches: seq<(nat, nat)>)
    requires 0 <= nb <= MAX_BRIGHT && nb % STEP == 0
    requires forall i :: 0 <= i < |batches| ==> batches[i].0 + batches[i].1 <= 1
    ensures 0 <= Adjusted(nb, batches) <= MAX_BRIGHT
    decreases |batches|
  {
    if batches != [] {
      var next := AdjustStep(nb, batches[0].0, batches[0].1);
      assert 0 <= next <= MAX_BRIGHT && next % STEP == 0;
      SinglePressesStayInRange(next, batches[1..]);
    }
  }

  /** A batch of several presses overshoots: from 5, two A presses at once give -5. */
  lemma MultiPressLeavesRange()
    ensures Adjusted(5, [(2, 0)]) == -5
  {
    assert [(2, 0)][1..] == [];
  }

  // ---------------------------------------------------------------------------
  // The power-state detector: the inner loop that returns only with the
  // monitor on.

  /**
    The outcome of the inner loop over a finite run of power-sense readings:
    how many were read, whether the loop exited, whether the exit was a wake-up
    (off to on), and the final power state.
   */
  datatype PowerScan = PowerScan(used: nat, exited: bool, woke: bool, state: bool)

  function ScanPower(state: bool, readings: seq<int>): PowerScan
    decreases |readings|
  {
    if readings == [] then PowerScan(0, false, false, state)
    else if readings[0] > POWER_THRESHOLD then PowerScan(1, true, !state, true)
    else
      // on: go to sleep; off: wait and read again. Either way the next reading is read while off.
      var rest := ScanPower(false, readings[1..]);
      rest.(used := rest.used + 1)
  }

  /**
    The loop exits exactly at the first reading above 700, in the on state; it
    is a wake-up unless that reading was the first one and the monitor was
    already on. Without such a reading every reading is consumed.
   */
  lemma {:induction false} ScanPowerSpec(state: bool, readings: seq<int>)
    ensures var s := ScanPower(state, readings);
      && s.used <= |readings|
      && (s.exited <==> exists i :: 0 <= i < |readings| && readings[i] > POWER_THRESHOLD)
      && (s.exited ==> s.state && 0 < s.used && readings[s.used - 1] > POWER_THRESHOLD)
      && (forall i :: 0 <= i < s.used - 1 ==> readings[i] <= POWER_THRESHOLD)
      && (!s.exited ==> s.used == |readings| && (s.state <==> state && readings == []))
      && (s.woke <==> s.exited && !(state && s.used == 1))
    decreases |readings|
  {
    if readings != [] && readings[0] <= POWER_THRESHOLD {
      var tail := readings[1..];
      ScanPowerSpec(false, tail);
      var t := ScanPower(false, tail);
      assert forall i :: 0 <= i < |tail| ==> tail[i] == readings[i + 1];
      if !t.exited {
        assert forall i :: 1 <= i < |readings| ==> readings[i] == tail[i - 1];
      } else {
        var i :| 0 <= i < |tail| && tail[i] > POWER_THRESHOLD;
        assert readings[i + 1] > POWER_THRESHOLD;
      }
    }
  }

  /** A reading of exactly 700 counts as off. */
  lemma ExactlyThresholdIsOff(rest: seq<int>)
    ensures ScanPower(true, [POWER_THRESHOLD] + rest).used == 1 + ScanPower(false, rest).used
    ensures !ScanPower(true, [POWER_THRESHOLD]).exited && !ScanPower(true, [POWER_THRESHOLD]).state
  {
    assert ([POWER_THRESHOLD] + rest)[1..] == rest;
  }

  /** The automatic path runs when no change was recorded yet, or the light moved by at least 50. */
  predicate AutoBranch(last: Option<int>, ldr: int)
  {
    last.None? || Abs(ldr - last.value) >= HYSTERESIS
  }

  /**
    The program's global state: the brightness map, the power state, the
    brightness believed shown, the light reading of the last change, the
    target of the latest step, and the log of everything sent to the panel.
   */
  class Controller {
    const brightMap: array<int>
    var monPwrState: bool
    var curBright: int
    var lastChangeLdr: Option<int>
    /** Kept from step to step; None until first assigned. */
    var newBright: Option<int>
    var trace: seq<Pulse>

    /** The map has its 21 entries and is non-decreasing; once a change is recorded, the kept target equals the brightness. */
    ghost predicate Valid()
      reads this, brightMap
    {
      && brightMap.Length == BUCKETS
      && Monotone(brightMap[..])
      && (lastChangeLdr.Some? ==> newBright == Some(curBright))
    }

    /** Builds the default map; the monitor is taken to be off. */
    constructor ()
      ensures Valid() && fresh(brightMap)
      ensures brightMap[..] == InitialMap()
      ensures !monPwrState && lastChangeLdr == None && newBright == None && trace == []
    {
      var m := new int[BUCKETS];
      var i := 0;
      while i < 1050
        invariant 0 <= i <= 1050 && i % WIDTH == 0
        invariant forall k :: 0 <= k < i / WIDTH ==> m[k] == (WIDTH * k) / 10
      {
        m[i / WIDTH] := i / 10;
        i := i + WIDTH;
      }
      assert m[..] == InitialMap();
      InitialMapFacts();
      brightMap := m;
      monPwrState := false;
      curBright := 0;
      lastChangeLdr := None;
      newBright := None;
      trace := [];
    }

    /** The user correction: set the bucket of `ldrVal` to `value`, then flatten the rest of the map. */
    method UpdateBrightMap(ldrVal: int, value: int)
      requires Valid() && InDomain(ldrVal)
      modifies brightMap
      ensures Valid()
      ensures brightMap[..] == Updated(old(brightMap[..]), ldrVal, value)
    {
      ghost var m0 := brightMap[..];
      ghost var edited := m0[BucketOf(ldrVal) := value];
      brightMap[RoundDown50(ldrVal) / WIDTH] := value;
      var j := 0;
      while j < BUCKETS
        invariant 0 <= j <= BUCKETS
        invariant forall i :: 0 <= i < j ==> brightMap[i] == Updated(m0, ldrVal, value)[i]
        invariant forall i :: j <= i < BUCKETS ==> brightMap[i] == edited[i]
      {
        if Overwrites(WIDTH * j, ldrVal, brightMap[j], value) {
          brightMap[j] := value;
        }
        j := j + 1;
      }
      assert brightMap[..] == Updated(m0, ldrVal, value);
      UpdatePreservesMonotone(m0, ldrVal, value);
    }

    /** The adjustment session started at brightness `cur` with light reading `ldrVal`; returns the final brightness. */
    method UserAdjust(cur: int, ldrVal: int, batches: seq<(nat, nat)>) returns (nb: int)
      requires Valid() && InDomain(ldrVal)
      modifies this`trace, brightMap
      ensures Valid()
      ensures nb == Adjusted(cur, batches)
      ensures trace == old(trace) + SessionTrace(cur, batches)
      ensures brightMap[..] == if nb != cur then Updated(old(brightMap[..]), ldrVal, nb) else old(brightMap[..])
    {
      nb := cur;
      var enter := PressButton(Pin12, 1, PRESS_MS);
      trace := trace + enter;
      var pulses;
      nb, pulses := SessionLoop(cur, batches);
      trace := trace + pulses;
      var exit := PressButton(Pin16, 1, PRESS_MS);
      trace := trace + exit;
      if nb != cur {
        UpdateBrightMap(ldrVal, nb);
      }
    }

    /**
      The inner power loop over the power-sense readings: returns how many it
      read and whether it exited (monitor on). A wake-up calibrates to 0 and
      forgets the last change's light reading.
     */
    method AwaitPower(readings: seq<int>) returns (used: nat, awake: bool)
      requires Valid()
      modifies this`monPwrState, this`curBright, this`lastChangeLdr, this`trace
      ensures Valid()
      ensures var s := ScanPower(old(monPwrState), readings);
        used == s.used && awake == s.exited && monPwrState == s.state
      ensures ScanPower(old(monPwrState), readings).woke ==>
        curBright == 0 && lastChangeLdr == None && trace == old(trace) + RESET_TRACE
      ensures !ScanPower(old(monPwrState), readings).woke ==>
        curBright == old(curBright) && lastChangeLdr == old(lastChangeLdr) && trace == old(trace)
    {
      var i := 0;
      while i < |readings|
        invariant 0 <= i <= |readings|
        invariant var s := ScanPower(monPwrState, readings[i..]);
          ScanPower(old(monPwrState), readings) == s.(used := s.used + i)
        invariant i > 0 ==> !monPwrState
        invariant curBright == old(curBright) && lastChangeLdr == old(lastChangeLdr) && trace == old(trace)
      {
        var reading := readings[i];
        assert readings[i..][1..] == readings[i + 1..];
        i := i + 1;
        if monPwrState {
          if reading > POWER_THRESHOLD {
            return i, true;  // monitor is still on
          } else {
            monPwrState := false;  // go to sleep
          }
        } else {
          if reading > POWER_THRESHOLD {
            monPwrState := true;  // waking up
            var pulses := ResetToZero();
            trace := trace + pulses;
            curBright := 0;
            lastChangeLdr := None;
            return i, true;
          }
        }
      }
      return |readings|, false;
    }

    /**
      One pass of the main loop after the power loop returned: `aPresses` and
      `bPresses` are the counts drained at its start (they only start a session),
      `batches` are the polls inside the session.
     */
    method ControlStep(ldrVal: int, aPresses: nat, bPresses: nat, batches: seq<(nat, nat)>)
      requires Valid() && monPwrState && InDomain(ldrVal)
      modifies this`curBright, this`lastChangeLdr, this`newBright, this`trace, brightMap
      ensures Valid()
      ensures newBright == Some(curBright)
      ensures aPresses > 0 || bPresses > 0 ==>
        && curBright == Adjusted(old(curBright), batches)
        && trace == old(trace) + SessionTrace(old(curBright), batches)
        && brightMap[..] == if curBright != old(curBright) then Updated(old(brightMap[..]), ldrVal, curBright) else old(brightMap[..])
      ensures aPresses == 0 && bPresses == 0 && AutoBranch(old(lastChangeLdr), ldrVal) ==>
        && curBright == old(brightMap[..])[BucketOf(ldrVal)]
        && trace == old(trace) + ChangePulses(curBright - old(curBright), true)
        && brightMap[..] == old(brightMap[..])
      ensures aPresses == 0 && bPresses == 0 && !AutoBranch(old(lastChangeLdr), ldrVal) ==>
        curBright == old(curBright) && trace == old(trace) && brightMap[..] == old(brightMap[..])
      ensures lastChangeLdr == if curBright != old(curBright) then Some(ldrVal) else old(lastChangeLdr)
    {
      if aPresses > 0 || bPresses > 0 {
        var nb := UserAdjust(curBright, ldrVal, batches);
        newBright := Some(nb);
      } else if lastChangeLdr.None? || Abs(ldrVal - lastChangeLdr.value) >= HYSTERESIS {
        newBright := Some(brightMap[RoundDown50(ldrVal) / WIDTH]);
        var pulses := ChangeBrightness(newBright.value - curBright, true);
        trace := trace + pulses;
      }
      if newBright.value != curBright {
        curBright := newBright.value;
        lastChangeLdr := Some(ldrVal);
      }
    }

    /**
      One iteration of the outer loop: the power loop over `powerReadings`, then,
      if it returned, the control step. Returns whether the control step ran.
     */
    method Iterate(powerReadings: seq<int>, ldrVal: int, aPresses: nat, bPresses: nat, batches: seq<(nat, nat)>)
      returns (stepped: bool)
      requires Valid() && InDomain(ldrVal)
      modifies this, brightMap
      ensures Valid()
      ensures stepped == ScanPower(old(monPwrState), powerReadings).exited
      ensures stepped ==> monPwrState && newBright == Some(curBright)
      ensures !stepped ==>
        && monPwrState == ScanPower(old(monPwrState), powerReadings).state
        && curBright == old(curBright) && lastChangeLdr == old(lastChangeLdr) && trace == old(trace)
        && brightMap[..] == old(brightMap[..]) && newBright == old(newBright)
      // With the loop returned, the control step starts from the state the power
      // loop left: brightness 0, no recorded change and the reset pulses after a wake-up.
      ensures stepped ==>
        var woke := ScanPower(old(monPwrState), powerReadings).woke;
        var cur0 := if woke then 0 else old(curBright);
        var last0 := if woke then None else old(lastChangeLdr);
        var trace0 := if woke then old(trace) + RESET_TRACE else old(trace);
        && (aPresses > 0 || bPresses > 0 ==>
          && curBright == Adjusted(cur0, batches)
          && trace == trace0 + SessionTrace(cur0, batches)
          && brightMap[..] == if curBright != cur0 then Updated(old(brightMap[..]), ldrVal, curBright) else old(brightMap[..]))
        && (aPresses == 0 && bPresses == 0 && AutoBranch(last0, ldrVal) ==>
          && curBright == old(brightMap[..])[BucketOf(ldrVal)]
          && trace == trace0 + ChangePulses(curBright - cur0, true)
          && brightMap[..] == old(brightMap[..]))
        && (aPresses == 0 && bPresses == 0 && !AutoBranch(last0, ldrVal) ==>
          curBright == cur0 && trace == trace0 && brightMap[..] == old(brightMap[..]))
        && lastChangeLdr == if curBright != cur0 then Some(ldrVal) else last0
    {
      var used;
      ScanPowerSpec(monPwrState, powerReadings);
      used, stepped := AwaitPower(powerReadings);
      if stepped {
        ControlStep(ldrVal, aPresses, bPresses, batches);
      }
    }
  }

  /**
    With no recorded change and the lookup equal to the current brightness,
    the automatic path opens and closes the menu and records nothing, so a
    second step with the same inputs does exactly the same again.
   */
  method UnchangedAutoStepRepeats(c: Controller, ldr: int)
    requires c.Valid() && c.monPwrState && InDomain(ldr)
    requires c.lastChangeLdr == None && c.brightMap[BucketOf(ldr)] == c.curBright
    modifies c, c.brightMap
    ensures c.Valid() && c.lastChangeLdr == None && c.curBright == old(c.curBright)
    ensures c.brightMap[..] == old(c.brightMap[..])
    ensures c.trace == old(c.trace)
      + [Pulse(Pin12, PRESS_MS, GAP_MS), Pulse(Pin16, PRESS_MS, GAP_MS)]
      + [Pulse(Pin12, PRESS_MS, GAP_MS), Pulse(Pin16, PRESS_MS, GAP_MS)]
  {
    ZeroChangeStillPulses();
    c.ControlStep(ldr, 0, 0, []);
    assert c.lastChangeLdr == None;
    c.ControlStep(ldr, 0, 0, []);
  }

  /** Hysteresis: after a change at reading 300, a reading of 340 does not start the automatic path; 360 does. */
  lemma HysteresisExample()
    ensures !AutoBranch(Some(300), 340) && AutoBranch(Some(300), 360)
  {
  }

  /**
    A wake-up followed by one automatic step: power readings 600, 600, 750 wake
    the monitor on the third, calibrate it to 0, and a light reading of 400 then
    asks the default map for 40 and raises brightness by 40 steps.
   */
  method WakeThenAutoStep()
  {
    var c := new Controller();
    var used, awake := c.AwaitPower([600, 600, 750]);
    assert [600, 600, 750][1..] == [600, 750] && [600, 750][1..] == [750];
    assert used == 3 && awake && c.curBright == 0 && c.lastChangeLdr == None;
    assert c.trace == RESET_TRACE;
    c.ControlStep(400, 0, 0, []);
    assert c.curBright == 40 && c.lastChangeLdr == Some(400);
    assert c.trace == RESET_TRACE + ChangePulses(40, true);
  }
}
