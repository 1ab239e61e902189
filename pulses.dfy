/**
  The controllers' only output: presses of the monitor's panel buttons, driven
  through three digital output lines. A press is recorded as a pulse: the line
  held high for some milliseconds, then low for some milliseconds.
 */
module Pulses {
  import opened Ints

  /** The three output lines wired to the monitor's button panel. */
  datatype Pin =
    | Pin8   // 'brightness down'
    | Pin12  // 'brightness up', and also 'enter brightness menu'
    | Pin16  // 'exit brightness menu'

  /** One press: `pin` high for `highMs`, then low for `lowMs`. */
  datatype Pulse = Pulse(pin: Pin, highMs: nat, lowMs: nat)

  /** Default time a button is held down, and the fixed low time after each press. */
  const PRESS_MS: nat := 65
  const GAP_MS: nat := 65

  /** `count` presses of `pin`, each `highMs` high and GAP_MS low; none when `count <= 0`. */
  function Presses(pin: Pin, count: int, highMs: nat): seq<Pulse>
  {
    seq(if count > 0 then count else 0, _ => Pulse(pin, highMs, GAP_MS))
  }

  /** The line that moves brightness in the direction of `increment`. */
  function DirectionPin(increment: int): Pin
  {
    if increment < 0 then Pin8 else Pin12
  }

  /**
    The pulses of a brightness change by `increment` menu steps: when
    `enterExitMenu`, one Up press opens the menu first and one Menu press closes
    it last; in between, |increment| Down presses for a negative increment,
    otherwise `increment` Up presses.
   */
  function ChangePulses(increment: int, enterExitMenu: bool): seq<Pulse>
  {
    (if enterExitMenu then Presses(Pin12, 1, PRESS_MS) else [])
    + (if increment < 0 then Presses(Pin8, -increment, PRESS_MS) else Presses(Pin12, increment, PRESS_MS))
    + (if enterExitMenu then Presses(Pin16, 1, PRESS_MS) else [])
  }

  /** The exact shape of a brightness change: its length, its first and last pulse, and its directional run. */
  lemma ChangePulsesShape(increment: int, enterExitMenu: bool)
    ensures var r := ChangePulses(increment, enterExitMenu);
      var first := if enterExitMenu then 1 else 0;
      && |r| == Abs(increment) + 2 * first
      && (enterExitMenu ==> r[0] == Pulse(Pin12, PRESS_MS, GAP_MS) && r[|r| - 1] == Pulse(Pin16, PRESS_MS, GAP_MS))
      && (forall k :: first <= k < first + Abs(increment) ==> r[k] == Pulse(DirectionPin(increment), PRESS_MS, GAP_MS))
  {
    var r := ChangePulses(increment, enterExitMenu);
    var first := if enterExitMenu then 1 else 0;
    var dir := if increment < 0 then Presses(Pin8, -increment, PRESS_MS) else Presses(Pin12, increment, PRESS_MS);
    assert r == (if enterExitMenu then Presses(Pin12, 1, PRESS_MS) else []) + dir
                + (if enterExitMenu then Presses(Pin16, 1, PRESS_MS) else []);
    assert |dir| == Abs(increment);
    forall k | first <= k < first + Abs(increment)
      ensures r[k] == Pulse(DirectionPin(increment), PRESS_MS, GAP_MS)
    {
      assert r[k] == dir[k - first];
    }
  }

  /** A zero change is not a no-op: with the menu flag it still opens and closes the menu. */
  lemma ZeroChangeStillPulses()
    ensures ChangePulses(0, true) == [Pulse(Pin12, PRESS_MS, GAP_MS), Pulse(Pin16, PRESS_MS, GAP_MS)]
    ensures ChangePulses(0, false) == []
  {
    assert Presses(Pin12, 0, PRESS_MS) == [];
    assert Presses(Pin12, 1, PRESS_MS) == [Pulse(Pin12, PRESS_MS, GAP_MS)];
    assert Presses(Pin16, 1, PRESS_MS) == [Pulse(Pin16, PRESS_MS, GAP_MS)];
  }
}
