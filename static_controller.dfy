/**
  The earlier controller of photosensor.py: a fixed lookup table, no hysteresis
  and no user input; every step moves the monitor to the table's value for the
  current light reading.
 */
module StaticController {
  import opened Pulses
  import opened BrightnessMap

  /** How long the Down line is held during calibration. */
  const CALIBRATION_HOLD_MS: nat := 6500

  /** Builds the lookup table: key `i` in 0, 50, ..., 1000 maps to `i // 10`. */
  method BuildLookup() returns (lookup: seq<int>)
    ensures |lookup| == BUCKETS
    ensures forall k :: 0 <= k < BUCKETS ==> 0 <= lookup[k] <= 100 && lookup[k] == (WIDTH * k) / 10
    ensures lookup == InitialMap()
  {
    lookup := [];
    var i := 0;
    while i < 1050
      invariant 0 <= i <= 1050 && i % WIDTH == 0
      invariant |lookup| == i / WIDTH
      invariant forall k :: 0 <= k < |lookup| ==> lookup[k] == (WIDTH * k) / 10
    {
      lookup := lookup + [i / 10];
      i := i + WIDTH;
    }
    InitialMapFacts();
  }

  /** Pushes `pin` `count` times: 65 ms high, then 65 ms low, each time. */
  method PushButton(pin: Pin, count: int) returns (emitted: seq<Pulse>)
    ensures |emitted| == (if count > 0 then count else 0)
    ensures forall k :: 0 <= k < |emitted| ==> emitted[k] == Pulse(pin, PRESS_MS, GAP_MS)
    ensures emitted == Presses(pin, count, PRESS_MS)
  {
    emitted := [];
    var i := 0;
    while i < count
      invariant 0 <= i && (count > 0 ==> i <= count) && (count <= 0 ==> i == 0)
      invariant |emitted| == i
      invariant forall k :: 0 <= k < i ==> emitted[k] == Pulse(pin, PRESS_MS, GAP_MS)
    {
      emitted := emitted + [Pulse(pin, PRESS_MS, GAP_MS)];
      i := i + 1;
    }
  }

  /** Opens the menu, moves `increment` steps, closes the menu; a zero increment still opens and closes it. */
  method ChangeBrightness(increment: int) returns (emitted: seq<Pulse>)
    ensures |emitted| >= 2
    ensures emitted[0] == Pulse(Pin12, PRESS_MS, GAP_MS) && emitted[|emitted| - 1] == Pulse(Pin16, PRESS_MS, GAP_MS)
    ensures emitted == ChangePulses(increment, true)
  {
    var enter := PushButton(Pin12, 1);
    var steps;
    if increment < 0 {
      steps := PushButton(Pin8, -increment);
    } else {
      steps := PushButton(Pin12, increment);
    }
    var exit := PushButton(Pin16, 1);
    emitted := enter + steps + exit;
  }

  /** Calibration drives the three lines by hand: Up 100 ms, Down held 6500 ms, Menu 100 ms. */
  const CALIBRATION_TRACE: seq<Pulse> :=
    [Pulse(Pin12, 100, 100), Pulse(Pin8, CALIBRATION_HOLD_MS, 100), Pulse(Pin16, 100, 500)]

  method ResetToZero() returns (emitted: seq<Pulse>)
    ensures emitted == CALIBRATION_TRACE
  {
    emitted := [Pulse(Pin12, 100, 100)];
    emitted := emitted + [Pulse(Pin8, CALIBRATION_HOLD_MS, 100)];
    emitted := emitted + [Pulse(Pin16, 100, 500)];
  }

  /** The program's global state: the fixed table, the brightness believed shown, and the pulse log. */
  class Photosensor {
    const lookup: seq<int>
    var curBright: int
    var trace: seq<Pulse>

    /** The table is the default curve, and the brightness is 0 or one of its values. */
    ghost predicate Valid()
      reads this
    {
      lookup == InitialMap() && (curBright == 0 || curBright in lookup)
    }

    /** Program start: build the table, take brightness 0, calibrate. */
    constructor ()
      ensures Valid()
      ensures curBright == 0 && trace == CALIBRATION_TRACE
    {
      var table := BuildLookup();
      var calibration := ResetToZero();
      lookup := table;
      curBright := 0;
      trace := calibration;
    }

    /** One loop step at light reading `ldrVal`: move to the table's value when it differs from the current brightness. */
    method Step(ldrVal: int)
      requires Valid() && InDomain(ldrVal)
      modifies this
      ensures Valid()
      ensures 0 <= curBright <= 100
      ensures var target := lookup[BucketOf(ldrVal)];
        if target != old(curBright) then
          curBright == target && trace == old(trace) + ChangePulses(target - old(curBright), true)
        else
          curBright == old(curBright) && trace == old(trace)
    {
      var newBright := lookup[RoundDown50(ldrVal) / WIDTH];
      if newBright != curBright {
        var pulses := ChangeBrightness(newBright - curBright);
        trace := trace + pulses;
        curBright := newBright;
      }
      InitialMapFacts();
    }
  }
}
