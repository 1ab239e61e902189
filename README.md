# Ambient-light monitor brightness controller (micro:bit), modelled in Dafny

This project models the brightness controller of a micro:bit program. The program
reads a photoresistor and presses an external monitor's panel buttons through
three output pins: pin 12 is Up and opens the menu, pin 8 is Down, and pin 16
closes the menu. It keeps a table from light bucket to brightness. When the
user corrects the brightness with the onboard A/B buttons, it edits the table
and then "flattens" the table so it stays non-decreasing. It watches a
power-sense line so that it acts only while the monitor is on. An earlier,
simpler controller and a pixel fade animation are modelled next to it.

Files and modules:

- `wrappers.dfy`: `Option` (Python's `None`), plus `Abs`, `Max` and `Min`.
- `pulses.dfy` (`Pulses`): the panel output. A press is a `Pulse(pin, highMs, lowMs)` record. The module also holds the
  spec functions for a run of presses (`Presses`) and for a brightness change (`ChangePulses`), which both controllers share.
- `brightness_map.dfy` (`BrightnessMap`): `round_down_50`, the default curve, and `Updated`, which is the
  correction-and-flattening edit written as a function on the 21-entry table (index = key / 50). It also holds the lemmas
  about that edit.
- `monitor_controller.dfy` (`MonitorController`): the controller of `photosensor_monitor_brightness.py`.
  - The program's globals become the class `Controller`. The map is a `const` `array<int>` of length 21 that
    `UpdateBrightMap` edits in place. The power state, `cur_bright`, `last_change_ldr_val` and `new_bright` are fields.
  - Every pulse sent to the panel is appended to the `trace` field.
  - The pulse loops, the session loop and the power loop are methods with loop invariants.
- `static_controller.dfy` (`StaticController`): the controller of `photosensor.py` (class `Photosensor`). It uses the
  same `RoundDown50`. Because its table is never changed, the table is a `const seq<int>`.
- `fade_loop.dfy` (`FadeLoop`): `find_brightest_pixel`, which scans a string, and `fade_loop_anim`, which works on a
  5×5 grid of pixels 0..9.

Inputs are given as parameters, not read from hardware:

- A light reading is an `int`. It must be in 0..1049, the domain that has a bucket.
- The power-sense readings are a finite `seq<int>`.
- The A/B press counts drained by each poll of the adjustment session are a `seq<(nat, nat)>`. The end of that
  sequence stands for the 3-second idle timeout.

Some behaviours of the code are easy to misread. In each case the model follows the code:

- `change_brightness(0)` with the menu flag is not a no-op: it still opens and closes the menu
  (`Pulses.ZeroChangeStillPulses`).
- The automatic path calls `change_brightness(new - cur)` even when the two are equal. So while
  `last_change_ldr_val` is `None` and the lookup equals the current brightness, every step opens and closes the menu
  again. `MonitorController.UnchangedAutoStepRepeats` runs two such steps and shows that each one emits the same two presses.
- The session does not clamp. Once either guard holds, it applies the whole `5*b - 5*a` change, so the brightness can
  leave [0, 100] (`MonitorController.MultiPressLeavesRange`). It stays in range if every poll has at most one press
  and the session starts from a multiple of 5 in [0, 100] (`MonitorController.SinglePressesStayInRange`).
- The presses drained at the start of a main-loop step only start the session. They are discarded, and the session
  reads new ones.
- `new_bright` is set only inside conditional branches, yet it is read after them. In the code it is a global that keeps its
  value from the previous iteration. The model keeps it as the field `newBright: Option<int>`, and `Controller.Valid()`
  proves that it is `Some(curBright)` whenever the automatic path can be skipped. So the read at line 163 always finds
  a value, and that value equals `cur_bright`.
- `MonitorController.WakeThenAutoStep` replays a wake-up as a verified sequence of calls. Power readings 600, 600 and 750
  wake the monitor on the third reading and calibrate it to 0. A light reading of 400 then reads 40 from the default
  map, and the step emits `ChangePulses(40, true)`.
- The flattening pass compares each key with the raw reading, not with its bucket. `BrightnessMap.UpdatedAt` proves
  that this is the same as comparing with the bucket.

## Model

| member | source | states |
|---|---|---|
| `BrightnessMap.RoundDown50` | photosensor_monitor_brightness.py:38-40 | the result is a multiple of 50 with `x - 50 < r <= x`, for every integer (the same function in photosensor.py:18-20 is modelled by this member) |
| `BrightnessMap.BucketOf` | photosensor_monitor_brightness.py:158 | a reading in 0..1049 falls in exactly one of the 21 buckets: index `k` with `50k <= x < 50k + 50` |
| `BrightnessMap.InitialMapFacts` | photosensor_monitor_brightness.py:33-35 | the default map has 21 entries (keys 0..1000 in steps of 50), every value in [0, 100], and is non-decreasing in the key |
| `BrightnessMap.UpdatedAt` | photosensor_monitor_brightness.py:87-94 | after a correction of reading `ldr` to `v`, the bucket of `ldr` holds `v`, every higher bucket `max(old, v)`, every lower bucket `min(old, v)` |
| `BrightnessMap.UpdatePreservesMonotone` | photosensor_monitor_brightness.py:87-94 | a non-decreasing map stays non-decreasing after any correction |
| `BrightnessMap.UpdateIdempotent` | photosensor_monitor_brightness.py:87-94 | applying the same correction twice gives the same map as applying it once |
| `BrightnessMap.UpdatedValues` | photosensor_monitor_brightness.py:87-94 | every entry after a correction is its old value or the new value |
| `BrightnessMap.CorrectionAt500To80` | photosensor_monitor_brightness.py:87-94 | correcting the default map at 500 to 80 raises buckets 550..800 to 80 and leaves all the others as they were |
| `Pulses.ChangePulsesShape` | photosensor_monitor_brightness.py:53-68 | a change emits `|inc|` directional presses (Down if `inc < 0`, else Up); with the menu flag there is one Up press before them and one Menu press after them |
| `Pulses.ZeroChangeStillPulses` | photosensor_monitor_brightness.py:55-68 | a zero change with the menu flag emits exactly the enter and exit presses; without the flag it emits nothing |
| `MonitorController.PressButton` | photosensor_monitor_brightness.py:43-50 | emits exactly `count` pulses (none when `count <= 0`), each `press_duration` ms high and 65 ms low on the given pin |
| `MonitorController.ChangeBrightness` | photosensor_monitor_brightness.py:53-68 | emits exactly the pulses of `ChangePulses`: `|inc|` + 2 of them with the menu flag, `|inc|` without |
| `MonitorController.ResetToZero` | photosensor_monitor_brightness.py:71-79 | emits Up (65 ms), Down held 6500 ms, and Menu (65 ms), in that order |
| `MonitorController.AdjustStep` | photosensor_monitor_brightness.py:109-114 | a poll without presses changes nothing; at or below 0, A-only polls are ignored; at or above 100, B-only polls are ignored; any change is a multiple of 5 and happens only when the guard holds |
| `MonitorController.SessionStep` | photosensor_monitor_brightness.py:108-118 | each poll applies its change and its menu-less pulses (or nothing), and the rest of the session goes on from the new value |
| `MonitorController.SessionLoop` | photosensor_monitor_brightness.py:106-118 | the polling loop ends with the brightness `Adjusted(start, polls)` and emits exactly `SessionPulses(start, polls)` |
| `MonitorController.IdleSession` | photosensor_monitor_brightness.py:106-118 | a session with no button activity returns the brightness unchanged and emits no adjustment pulses |
| `MonitorController.AdjustedKeepsStep` | photosensor_monitor_brightness.py:110-112 | a session changes the brightness by a multiple of 5 |
| `MonitorController.SinglePressesStayInRange` | photosensor_monitor_brightness.py:110-112 | starting from a multiple of 5 in [0, 100], a session whose polls each hold at most one press ends in [0, 100] |
| `MonitorController.MultiPressLeavesRange` | photosensor_monitor_brightness.py:110-112 | two A presses in one poll at brightness 5 give -5: the guards do not bound the result |
| `MonitorController.ScanPowerSpec` | photosensor_monitor_brightness.py:133-151 | the power loop exits exactly at the first reading above 700, always in the on state. The exit is a wake-up unless the monitor was on and the first reading was already high. With no high reading, every reading is consumed |
| `MonitorController.ExactlyThresholdIsOff` | photosensor_monitor_brightness.py:135-141 | a reading of exactly 700 counts as off: in the on state it turns the state off and the loop continues |
| `MonitorController.UnchangedAutoStepRepeats` | photosensor_monitor_brightness.py:157-165 | two control steps without presses, with no change recorded and the lookup equal to the current brightness: each appends exactly the enter and exit presses, and brightness, map and `last_change_ldr_val = None` stay as they were |
| `MonitorController.HysteresisExample` | photosensor_monitor_brightness.py:157 | after a change at 300, a reading of 340 does not start the automatic path and a reading of 360 does |
| `MonitorController.Controller.constructor` | photosensor_monitor_brightness.py:33-35 | the map is built as the default curve (so the invariant holds) and the monitor is taken to be off |
| `MonitorController.Controller.UpdateBrightMap` | photosensor_monitor_brightness.py:87-94 | updates the array in place to `Updated(old map, ldr, v)` and keeps the map non-decreasing |
| `MonitorController.Controller.UserAdjust` | photosensor_monitor_brightness.py:97-125 | returns `Adjusted(cur, polls)` and emits enter, the adjustments, then exit. The map is corrected only when the result differs from `cur`, and then at that result |
| `MonitorController.Controller.AwaitPower` | photosensor_monitor_brightness.py:133-151 | follows `ScanPower`. A wake-up emits the reset pulses and sets `cur_bright = 0` and `last_change_ldr_val = None`; otherwise both, and the trace, are unchanged |
| `MonitorController.Controller.ControlStep` | photosensor_monitor_brightness.py:153-166 | with presses: the session's result and its pulses. With none and the hysteresis test passing: the map's value for the bucket, reached with one menu change. Otherwise nothing is emitted. `cur_bright` and `last_change_ldr_val` change only when the target differs, and afterwards `new_bright == cur_bright` |
| `MonitorController.Controller.Iterate` | photosensor_monitor_brightness.py:130-166 | one outer iteration runs the control step exactly when the power loop returns. If the loop does not return, the power state is the scan's final state and brightness, last change, trace and map are unchanged. If it returns, the control step's three cases apply to the state after the power loop (0, `None` and the reset pulses after a wake-up, the old values otherwise), and the monitor is marked on with `new_bright == cur_bright` |
| `StaticController.BuildLookup` | photosensor.py:13-15 | the table has 21 entries, key `50k` maps to `50k // 10`, and every value is in [0, 100] |
| `StaticController.PushButton` | photosensor.py:23-30 | emits exactly `count` pulses on the pin, each 65 ms high then 65 ms low |
| `StaticController.ChangeBrightness` | photosensor.py:32-45 | always begins with one Up press and ends with one Menu press, with the directional presses between them, so a zero increment still gives two pulses |
| `StaticController.ResetToZero` | photosensor.py:47-61 | drives pin 12, then pin 8 (held 6500 ms), then pin 16, high then low, in that order |
| `StaticController.Photosensor.constructor` | photosensor.py:63-66 | the state starts at brightness 0 with the calibration pulses sent and the default table |
| `StaticController.Photosensor.Step` | photosensor.py:68-76 | a change of `new - cur` is emitted and `cur_bright` set to `new` exactly when they differ; otherwise nothing happens. `cur_bright` stays 0 or a table value, so it stays in [0, 100] |
| `FadeLoop.FindBrightestPixel` | fade_loop.py:3-10 | returns None exactly when the text has no digit; otherwise a digit that occurs in the text and is at least every digit in it |
| `FadeLoop.RenderHasPixel` | fade_loop.py:6 | every pixel's digit occurs in the image's text |
| `FadeLoop.RenderDigitIsPixel` | fade_loop.py:6 | every digit in the image's text is some pixel's value |
| `FadeLoop.BrightestOfRender` | fade_loop.py:15 | the text search on an image returns its brightest pixel (never None) |
| `FadeLoop.MaxPixel` | fade_loop.py:15 | the brightest pixel of an image: it occurs in the image and no pixel exceeds it |
| `FadeLoop.FadeFrame` | fade_loop.py:17-21 | the cell-by-cell fill gives pixel `(x, y) = max(orig(x, y) - i, 0)` |
| `FadeLoop.FadeZero` | fade_loop.py:16-21 | frame 0 is the original image |
| `FadeLoop.FadeToDark` | fade_loop.py:16-21 | fading by at least the brightest pixel gives an all-zero frame |
| `FadeLoop.FadeBounds` | fade_loop.py:20-21 | fade pixels are never negative, never above the original, and do not increase from frame `i` to frame `i + 1` |
| `FadeLoop.FadeLoopAnim` | fade_loop.py:12-25 | with `n` the brightest pixel: length `2(n+1) + 5`, frame `i` is the fade by `i` for `i` in 0..n, the second block is the first one reversed, and the last five frames are the original image |

## Left out

- Hardware and time. The model does not cover these calls: `write_digital`, `read_analog`, `sleep`, `running_time`,
  `display.scroll`, `display.show`, and the `pin2.write_digital(0)` at start-up. Readings are parameters. Pulses are
  records whose low time is the wait right after the falling edge inside the press primitive. The other waits between
  presses (500 ms for the menu to render, 200 ms, the 1500 ms settle, the 11 s wake wait, the 1 s and 500 ms polls) are
  not recorded.
- The 3 s idle timeout of the session is the end of the poll sequence. Ignored polls and empty polls are not told apart
  by time.
- Saving the map to flash is named in the comments of photosensor_monitor_brightness.py but never implemented.
- The drain of button presses on wake-up (photosensor_monitor_brightness.py:148) has no visible effect in the model:
  presses are per-step inputs.
- `MonitorController.Controller.ControlStep`: requires a light reading in 0..1049. Outside that range the automatic
  path fails with a missing key, but the manual path's `update_bright_map` would add a new key to the dict. That second
  behaviour is not modelled.
- `MonitorController.Controller.UpdateBrightMap`: requires a reading in 0..1049. A larger reading would add a new dict
  key and is not modelled.
- `MonitorController.Controller.constructor`: `cur_bright` and `last_change_ldr_val` are not bound at start-up in the
  program. The model gives them 0 and `None`, values that the first wake-up overwrites in any case.
- `FadeLoop`: the micro:bit `Image` class is a 5×5 grid of ints 0..9. Its text form is abstracted as the rows' digits,
  each followed by ':'. The only assumption is that the real `repr` carries the pixel digits and no other digits; its
  exact format is not modelled. The round trip of each frame through `str` and `Image(...)` is taken as the identity on
  0..9. The `__main__` block that displays the animation is left out.
- explosion.py, space_shoot_multiplayer.py and radio_flasher_test.py are not part of this model. They are display and
  radio loops outside the controller.
