# Macropad input layer

A Dafny model of the per-scan input layer of a three-mode macropad firmware
(CircuitPython on KMK). Once per matrix scan, the firmware does four things in order:

1. It ticks a start-up delay that lights the status LED on the eleventh scan.
2. It ticks a blink counter that flashes the LED while the user is choosing a mode.
3. It ticks a two-scan auto-release timer for the volume key it synthesised last.
4. It samples a rotary encoder, which reports one detent per falling edge of pin A. A
   detent either changes the mode (numpad, media, macro) while mode selection is
   active, or presses volume-up or volume-down.

A dedicated key toggles mode selection.

Structure, one module per component:

- `Hardware` (hardware.dfy) models what the layer does to its surroundings. The KMK
  keyboard and the optional NeoPixel become a `Host` object: a flag saying whether the
  LED is fitted, a log of the colours filled into it, a log of `add_key`/`remove_key`
  calls, and the active layer list. This file also holds the `MODE_COLORS` table, and
  `Held`, the set of keys the host holds after a given event log.
- `Encoder` (encoder.dfy) holds `ManualEncoder`, a class with the one field `lastA`.
  `Decode` is the function that specifies it.
- `Modes` (modes.dfy) holds the `ModeManager` class with the source's eight fields and
  six methods. Each method is proved equal to a function on values
  (`CheckInitStep`, `UpdateBlinkStep`, …) of the manager and host state. Those
  functions, and the lemmas about them, carry the properties. `Invariant` is the object
  invariant, and every step function preserves it.
- `ModeSelectKey` (mode_select_key.dfy) holds the custom key's press and release
  handlers.
- `ScanCycle` (scan_cycle.dfy) holds `custom_before_matrix_scan` as the
  `BeforeMatrixScan` method and the `ScanStep` function. It also defines runs over any
  interleaving of scans and mode-select presses, with the end-to-end timing and
  "one key at a time" results.

Points of the firmware's behaviour worth noting, all modelled as written:

- The volume branch releases any pending key before pressing the new one, even when it
  is the same key (main.py:239-244).
- `update_blink` does nothing when no LED is fitted, so the blink counter does not
  advance (main.py:124).
- `check_init` writes the colour of the *current* mode on the eleventh call. That is
  mode 0 only if the mode has not been changed by then. `InitColourOnEleventhScan`
  proves the mode-0 case from power-on with no input. The object invariant covers the
  general case: once started, outside selection, the LED shows the current mode's
  colour.

## Model

| member | source | states |
|---|---|---|
| Hardware.ModeColor | firmware/main.py:55-60 | the colour of each mode comes from the three-entry table and is never black |
| Hardware.ModeColorsDistinct | firmware/main.py:56-60 | the three modes have pairwise different colours |
| Hardware.NeverTwoHeldPrefixes | firmware/main.py:237-248 | the recursive "never two keys held" predicate means that every prefix of the host's key-call stream leaves at most one synthesised key held |
| Hardware.Host.constructor | firmware/main.py:35-50 | at start-up a fitted LED has been filled black once, no key has been touched, and the keyboard is on layer 0 |
| Encoder.Decode | firmware/main.py:79-94 | non-zero exactly on a falling edge of A (previous level high, current low); −1 exactly when B is high at that edge, +1 exactly when B is low; 0 on a rising edge or no edge |
| Encoder.NoBackToBackDetents | firmware/main.py:84-94 | after a reported detent the next sample cannot report another one |
| Encoder.ManualEncoder.constructor | firmware/main.py:64-75 | the encoder remembers the level pin A has at set-up |
| Encoder.ManualEncoder.Update | firmware/main.py:79-94 | returns the decoded rotation for the remembered and sampled levels, and afterwards remembers the sampled A whether or not an edge occurred |
| Modes.Initial | firmware/main.py:101-109 | the power-on state (mode 0, not selecting, counters zero, nothing pending) satisfies the object invariant |
| Modes.NextMode | firmware/main.py:141-144 | the result is always in [0,3); from a valid mode, clockwise goes 0→1→2→0 and counter-clockwise goes 0→2→1→0 |
| Modes.ThreeClockwiseReturn | firmware/main.py:141-144 | three clockwise steps return to the starting mode; one clockwise step from 0 gives 1; one counter-clockwise step from 0 gives 2 |
| Modes.SetModeColorStep | firmware/main.py:111-120 | with an LED fitted, exactly one write is appended, and it is the current mode's colour, earlier writes kept; with none, nothing is written; the manager, key stream and layers are unchanged; the invariant is kept |
| Modes.UpdateBlinkStep | firmware/main.py:122-136 | only the blink counter, the blink phase and the LED log can change, and the invariant (blink counter in [0,30)) is kept |
| Modes.CycleModeStep | firmware/main.py:138-149 | the mode stays in [0,3) on every path, and the invariant (layer equals mode) is kept |
| Modes.ToggleModeSelectStep | firmware/main.py:151-159 | the mode is unchanged and the invariant is kept |
| Modes.CheckInitStep | firmware/main.py:161-167 | only the start-up counter, the initialised flag and the LED log can change, and the invariant (counter stops at 11, initialised exactly at 11) is kept |
| Modes.HandleKeyReleaseStep | firmware/main.py:169-176 | only the pending slot, the release counter and the key stream can change, and the invariant (the host holds exactly the pending key) is kept |
| Modes.CycleModeEffect | firmware/main.py:138-149 | while selecting: the mode moves one step, the layer list becomes the new mode, a fitted LED gets the new mode's colour, and no key event occurs; when not selecting: nothing changes |
| Modes.ToggleModeSelectEffect | firmware/main.py:151-159 | selection is negated; the blink counter becomes 0 and the phase false; the solid mode colour is written exactly when selection is left with an LED fitted |
| Modes.ToggleTwiceRestoresSelection | firmware/main.py:151-155 | two toggles restore the selection flag and every other manager field, except that the blink counter and phase are reset |
| Modes.UpdateBlinkIdle | firmware/main.py:124 | when not selecting, or with no LED, update_blink changes nothing |
| Modes.BlinkOncePerPeriod | firmware/main.py:124-136 | while selecting with an LED, the counter rises by one per call; the LED is written exactly once, on the call that reaches 30; that write is the mode colour when the phase turns on and black when it turns off |
| Modes.ReleasedOnSecondTick | firmware/main.py:169-176 | with nothing pending a tick is a no-op; a freshly asserted key survives one tick and is released, with the slot cleared, on the second; the tick after that is a no-op |
| Modes.ModeManager.constructor | firmware/main.py:101-109 | the fields start at mode 0, not selecting, not initialised, zero counters, nothing pending |
| Modes.ModeManager.SetModeColor | firmware/main.py:111-120 | the new state is SetModeColorStep of the old one |
| Modes.ModeManager.UpdateBlink | firmware/main.py:122-136 | keeps the object invariant; the new state is UpdateBlinkStep of the old one |
| Modes.ModeManager.CycleMode | firmware/main.py:138-149 | keeps the object invariant; returns true exactly when selecting; the new state is CycleModeStep of the old one |
| Modes.ModeManager.ToggleModeSelect | firmware/main.py:151-159 | keeps the object invariant; the new state is ToggleModeSelectStep of the old one |
| Modes.ModeManager.CheckInit | firmware/main.py:161-167 | keeps the object invariant; the new state is CheckInitStep of the old one |
| Modes.ModeManager.HandleKeyRelease | firmware/main.py:169-176 | keeps the object invariant; the new state is HandleKeyReleaseStep of the old one |
| ModeSelectKey.OnPress | firmware/main.py:185-187 | a press toggles mode selection, keeps the invariant, and reports false |
| ModeSelectKey.OnRelease | firmware/main.py:189-190 | a release changes nothing and reports false |
| ScanCycle.SendVolumeKeyStep | firmware/main.py:237-250 | only the pending slot, the release counter and the key stream change; the new key (VOLU for a positive direction, else VOLD) is pending with counter 0; the invariant is kept, and under it exactly the new key is held |
| ScanCycle.Bookkeeping | firmware/main.py:226-228 | the three ticks leave the mode and the selection flag unchanged; of the three, only the release tick touches keys |
| ScanCycle.ScanStep | firmware/main.py:225-250 | a scan keeps the mode in [0,3) and keeps the object invariant |
| ScanCycle.RotationRouting | firmware/main.py:231-250 | on a detent while selecting, the result is cycle_mode of the ticked state (mode, layer list and a fitted LED change) and no key event is emitted; otherwise the pending key (if any) is removed, and then VOLU (B low) or VOLD (B high) is added; afterwards it is pending with counter 0 and is the only key held; routing sees the selection flag from before the scan |
| ScanCycle.QuietScan | firmware/main.py:225-235 | outside selection, with no key pending and no detent, a scan does what check_init does and nothing else |
| ScanCycle.ReleasedOnSecondScan | firmware/main.py:225-250 | a key synthesised on one scan is still down after the next detent-free scan, and is released on the second, with no other key event in between |
| ScanCycle.InitColourOnEleventhScan | firmware/main.py:161-167 | from power-on with no input, scans 1–10 write nothing; scan 11 writes the mode-0 colour once and sets initialised; later scans change nothing; no key is ever touched |
| ScanCycle.SelectThenClockwise | firmware/main.py:225-235 | after a mode-select press in mode 0, one clockwise detent gives mode 1 and layer 1, writes the mode-1 colour, and emits no volume key |
| ScanCycle.Step | firmware/main.py:185-235 | every input (a scan, a press of the mode-select key, a release) keeps the object invariant |
| ScanCycle.Run | firmware/main.py:225-250 | any sequence of inputs keeps the object invariant |
| ScanCycle.AtMostOneKeyHeld | firmware/main.py:237-250 | from power-on, for any inputs: the mode is in [0,3) with the layer matching it; the host holds exactly the pending key; at no point of the key stream are two synthesised keys held |
| ScanCycle.Startup | firmware/main.py:35-50 | set-up gives fresh objects in the power-on state, with the object invariant holding |
| ScanCycle.SendVolumeKey | firmware/main.py:237-250 | keeps the object invariant; the new state is SendVolumeKeyStep of the old one |
| ScanCycle.BeforeMatrixScan | firmware/main.py:225-250 | keeps the object invariant; the encoder remembers the sampled A; the new state is ScanStep of the old one (init tick, then blink tick, then release tick, then encoder sampling and routing) |

## Left out

- firmware/boot.py is not part of this model. It is one-shot USB and storage set-up at power-on.
- The boot-time check at main.py:4-10 is left out. Its "disabled" branch is an endless empty loop, so the model starts where the firmware runs normally.
- KMK keyboard construction and configuration are left out: pins, diode orientation, module and extension registration, the keymap table and `keyboard.go()`. They are foreign library calls and static data. The only part of the keymap kept is that the active layer list is set to `[current_mode]`.
- The starting layer list `[0]` is KMK's default and is assumed, not modelled.
- The pin reads are left out. The two sampled levels are parameters of `BeforeMatrixScan`, and the first level of pin A is a parameter of the constructor.
- The unused `position` field of the encoder is left out.
- NeoPixel brightness handling (a float) is left out, and so is the `show()` flush. An LED write is one entry of the colour log.
- An LED that fails to initialise, or whose write raises, is modelled as an absent LED. The `try/except` blocks and the `print` diagnostics are not modelled.
- The host's `add_key`/`remove_key` are modelled as entries of an event log. The keys held are derived as a set. How KMK turns that into USB reports within one scan is not modelled.
