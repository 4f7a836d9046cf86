/** ModeManager: the active mode and the mode-selection state, the blink and
    start-up counters that drive the status LED, and the auto-release timer of
    the synthesised volume key. */
module Modes {
  import opened Hardware

  datatype Option<T> = None | Some(value: T)

  /** The number of modes (numpad, media, macro), one keymap layer each. */
  const ModeCount := 3
  /** check_init writes the first colour once its counter exceeds this. */
  const InitDelay := 10
  /** Scan cycles per half-period of the selection blink. */
  const BlinkPeriod := 30
  /** Scan cycles a synthesised key stays down. */
  const ReleaseDelay := 2

  /** The fields of a ModeManager. */
  datatype Manager = Manager(currentMode: int, modeSelectActive: bool,
                             initialized: bool, counter: int,
                             blinkCounter: int, blinkState: bool,
                             pendingKeyRelease: Option<Key>, releaseCounter: int)

  /** A ModeManager together with the host state its methods touch. */
  datatype Core = Core(mm: Manager, host: HostView)

  function InitialManager(): Manager
  {
    Manager(0, false, false, 0, 0, false, None, 0)
  }

  /** The state at power-on satisfies the invariant. */
  function Initial(pixelsPresent: bool): (c: Core)
    ensures Invariant(c)
  {
    var events: seq<HostEvent> := [];
    assert forall i :: 0 <= i <= |events| ==> events[..i] == [];
    Core(InitialManager(), InitialHost(pixelsPresent))
  }

  function PendingSet(p: Option<Key>): set<Key>
  {
    if p.Some? then {p.value} else {}
  }

  /** What every reachable state satisfies. */
  predicate Invariant(c: Core)
  {
    var m := c.mm;
    var h := c.host;
    // the mode is always a valid index, and the keymap layer follows it
    0 <= m.currentMode < ModeCount && h.activeLayers == [m.currentMode] &&
    // start-up delay: counts to 11 and stops there
    0 <= m.counter <= InitDelay + 1 && (m.initialized <==> m.counter == InitDelay + 1) &&
    // blink phase: below the period, and reset outside selection or without an LED
    0 <= m.blinkCounter < BlinkPeriod &&
    (!m.modeSelectActive || !h.pixelsPresent ==> m.blinkCounter == 0 && !m.blinkState) &&
    // auto-release: the host holds exactly the pending key, and never two at once
    0 <= m.releaseCounter < ReleaseDelay &&
    (m.pendingKeyRelease.None? ==> m.releaseCounter == 0) &&
    Held(h.keyEvents) == PendingSet(m.pendingKeyRelease) &&
    NeverTwoHeld(h.keyEvents) &&
    // the LED: nothing is written to an absent one; outside selection, once
    // started, a present one shows the current mode's colour
    (!h.pixelsPresent ==> h.ledWrites == []) &&
    (h.pixelsPresent ==> h.ledWrites != []) &&
    (h.pixelsPresent && m.initialized && !m.modeSelectActive ==>
       h.ledWrites[|h.ledWrites| - 1] == ModeColor(m.currentMode))
  }

  /** The mode one detent away: Python's `%` with a positive divisor is never
      negative, as Dafny's is, so `(m - 1) % 3` wraps 0 to 2. */
  function NextMode(mode: int, direction: int): (r: int)
    ensures 0 <= r < ModeCount
    ensures 0 <= mode < ModeCount ==>
      r == if direction > 0 then (if mode == ModeCount - 1 then 0 else mode + 1)
           else (if mode == 0 then ModeCount - 1 else mode - 1)
  {
    if direction > 0 then (mode + 1) % ModeCount else (mode - 1) % ModeCount
  }

  /** Three clockwise detents come back to the starting mode. */
  lemma ThreeClockwiseReturn(mode: int)
    requires 0 <= mode < ModeCount
    ensures NextMode(NextMode(NextMode(mode, 1), 1), 1) == mode
    ensures NextMode(0, 1) == 1 && NextMode(0, -1) == 2
  {
  }

  // ---------------------------------------------------------------------
  // The ModeManager methods as functions of the state they read and write.

  /** set_mode_color: a fitted LED gets one more write, the colour of the
      current mode; nothing else changes. */
  function SetModeColorStep(c: Core): (r: Core)
    ensures r.mm == c.mm
    ensures r.host == c.host.(ledWrites := r.host.ledWrites)
    ensures |r.host.ledWrites| == |c.host.ledWrites| + (if c.host.pixelsPresent then 1 else 0)
    ensures r.host.ledWrites[..|c.host.ledWrites|] == c.host.ledWrites
    ensures c.host.pixelsPresent && 0 <= c.mm.currentMode < ModeCount ==>
      r.host.ledWrites[|r.host.ledWrites| - 1] == ModeColor(c.mm.currentMode)
    ensures Invariant(c) ==> Invariant(r)
  {
    if c.host.pixelsPresent then
      c.(host := c.host.(ledWrites := c.host.ledWrites + [ModeColor(c.mm.currentMode % ModeCount)]))
    else c
  }

  function UpdateBlinkStep(c: Core): (r: Core)
    requires 0 <= c.mm.currentMode < ModeCount
    ensures r.mm == c.mm.(blinkCounter := r.mm.blinkCounter, blinkState := r.mm.blinkState)
    ensures r.host == c.host.(ledWrites := r.host.ledWrites)
    ensures Invariant(c) ==> Invariant(r)
  {
    if c.mm.modeSelectActive && c.host.pixelsPresent then
      var n := c.mm.blinkCounter + 1;
      if n >= BlinkPeriod then
        var on := !c.mm.blinkState;
        Core(c.mm.(blinkCounter := 0, blinkState := on),
             c.host.(ledWrites := c.host.ledWrites + [if on then ModeColor(c.mm.currentMode) else Black]))
      else c.(mm := c.mm.(blinkCounter := n))
    else c
  }

  function CycleModeStep(c: Core, direction: int): (r: Core)
    ensures 0 <= c.mm.currentMode < ModeCount ==> 0 <= r.mm.currentMode < ModeCount
    ensures Invariant(c) ==> Invariant(r)
  {
    if c.mm.modeSelectActive then
      var m := NextMode(c.mm.currentMode, direction);
      var c1 := SetModeColorStep(c.(mm := c.mm.(currentMode := m)));
      c1.(host := c1.host.(activeLayers := [m]))
    else c
  }

  function ToggleModeSelectStep(c: Core): (r: Core)
    ensures r.mm.currentMode == c.mm.currentMode
    ensures Invariant(c) ==> Invariant(r)
  {
    var c1 := c.(mm := c.mm.(modeSelectActive := !c.mm.modeSelectActive,
                             blinkCounter := 0, blinkState := false));
    if !c1.mm.modeSelectActive then SetModeColorStep(c1) else c1
  }

  function CheckInitStep(c: Core): (r: Core)
    ensures r.mm == c.mm.(counter := r.mm.counter, initialized := r.mm.initialized)
    ensures r.host == c.host.(ledWrites := r.host.ledWrites)
    ensures Invariant(c) ==> Invariant(r)
  {
    if !c.mm.initialized then
      var c1 := c.(mm := c.mm.(counter := c.mm.counter + 1));
      if c1.mm.counter > InitDelay then
        var c2 := SetModeColorStep(c1);
        c2.(mm := c2.mm.(initialized := true))
      else c1
    else c
  }

  function HandleKeyReleaseStep(c: Core): (r: Core)
    ensures r.mm == c.mm.(pendingKeyRelease := r.mm.pendingKeyRelease, releaseCounter := r.mm.releaseCounter)
    ensures r.host == c.host.(keyEvents := r.host.keyEvents)
    ensures Invariant(c) ==> Invariant(r)
  {
    match c.mm.pendingKeyRelease
    case None => c
    case Some(k) =>
      var n := c.mm.releaseCounter + 1;
      if n >= ReleaseDelay then
        HeldSnoc(c.host.keyEvents, KeyUp(k));
        NeverTwoHeldSnoc(c.host.keyEvents, KeyUp(k));
        Core(c.mm.(pendingKeyRelease := None, releaseCounter := 0),
             c.host.(keyEvents := c.host.keyEvents + [KeyUp(k)]))
      else c.(mm := c.mm.(releaseCounter := n))
  }

  // ---------------------------------------------------------------------
  // Properties of the individual methods.

  /** cycle_mode: while selecting, the mode moves one step, the keymap layer
      follows, a fitted LED shows the new mode's colour, and no key is
      touched; otherwise nothing changes. */
  lemma CycleModeEffect(c: Core, direction: int)
    requires Invariant(c)
    ensures var r := CycleModeStep(c, direction);
      if c.mm.modeSelectActive then
        r.mm == c.mm.(currentMode := NextMode(c.mm.currentMode, direction)) &&
        r.host.activeLayers == [r.mm.currentMode] &&
        r.host.keyEvents == c.host.keyEvents &&
        r.host.ledWrites == c.host.ledWrites +
          (if c.host.pixelsPresent then [ModeColor(r.mm.currentMode)] else [])
      else r == c
  {
  }

  /** toggle_mode_select: flips selection and resets the blink; leaving
      selection shows the solid mode colour, entering it writes nothing. */
  lemma ToggleModeSelectEffect(c: Core)
    requires Invariant(c)
    ensures var r := ToggleModeSelectStep(c);
      r.mm == c.mm.(modeSelectActive := !c.mm.modeSelectActive, blinkCounter := 0, blinkState := false) &&
      r.host.keyEvents == c.host.keyEvents && r.host.activeLayers == c.host.activeLayers &&
      r.host.ledWrites == c.host.ledWrites +
        (if c.mm.modeSelectActive && c.host.pixelsPresent then [ModeColor(c.mm.currentMode)] else [])
  {
  }

  /** Two presses restore the selection flag and leave the blink reset. */
  lemma ToggleTwiceRestoresSelection(c: Core)
    ensures var r := ToggleModeSelectStep(ToggleModeSelectStep(c));
      r.mm == c.mm.(blinkCounter := 0, blinkState := false)
  {
  }

  /** update_blink changes nothing unless selecting with an LED fitted. */
  lemma UpdateBlinkIdle(c: Core)
    requires Invariant(c)
    requires !c.mm.modeSelectActive || !c.host.pixelsPresent
    ensures UpdateBlinkStep(c) == c
  {
  }

  /** update_blink applied n times. */
  function BlinkTicks(c: Core, n: nat): (r: Core)
    requires 0 <= c.mm.currentMode < ModeCount
    ensures r.mm.currentMode == c.mm.currentMode
    decreases n
  {
    if n == 0 then c else UpdateBlinkStep(BlinkTicks(c, n - 1))
  }

  /** While selecting with an LED fitted, the blink counter climbs one per
      call and the LED is written exactly once per period, on the call that
      reaches 30: the mode colour when the phase turns on, black when it turns
      off. */
  lemma {:induction false} BlinkOncePerPeriod(c: Core, n: nat)
    requires Invariant(c) && c.mm.modeSelectActive && c.host.pixelsPresent
    requires c.mm.blinkCounter + n <= BlinkPeriod
    ensures var r := BlinkTicks(c, n);
      var flips := c.mm.blinkCounter + n == BlinkPeriod;
      r.mm == c.mm.(blinkCounter := (c.mm.blinkCounter + n) % BlinkPeriod,
                    blinkState := if flips then !c.mm.blinkState else c.mm.blinkState) &&
      r.host == c.host.(ledWrites := c.host.ledWrites +
        (if flips then [if c.mm.blinkState then Black else ModeColor(c.mm.currentMode)] else []))
  {
    if n > 0 {
      BlinkOncePerPeriod(c, n - 1);
    }
  }

  /** handle_key_release: with nothing pending a tick changes nothing; a key
      asserted with a fresh counter stays down for one tick and is released,
      and the slot cleared, on the second. */
  lemma ReleasedOnSecondTick(c: Core)
    requires Invariant(c)
    ensures c.mm.pendingKeyRelease.None? ==> HandleKeyReleaseStep(c) == c
    ensures c.mm.pendingKeyRelease.Some? && c.mm.releaseCounter == 0 ==>
      var k := c.mm.pendingKeyRelease.value;
      var c1 := HandleKeyReleaseStep(c);
      var c2 := HandleKeyReleaseStep(c1);
      c1.mm == c.mm.(releaseCounter := 1) && c1.host == c.host &&
      c2.mm == c.mm.(pendingKeyRelease := None, releaseCounter := 0) &&
      c2.host == c.host.(keyEvents := c.host.keyEvents + [KeyUp(k)]) &&
      HandleKeyReleaseStep(c2) == c2
  {
  }

  // ---------------------------------------------------------------------
  // The object.

  class ModeManager {
    var currentMode: int
    var modeSelectActive: bool
    var initialized: bool
    var counter: int
    var blinkCounter: int
    var blinkState: bool
    var pendingKeyRelease: Option<Key>
    var releaseCounter: int

    ghost function View(): Manager
      reads this
    {
      Manager(currentMode, modeSelectActive, initialized, counter,
              blinkCounter, blinkState, pendingKeyRelease, releaseCounter)
    }

    ghost function CoreView(host: Host): Core
      reads this, host
    {
      Core(View(), host.View())
    }

    ghost predicate Valid(host: Host)
      reads this, host
    {
      Invariant(CoreView(host))
    }

    constructor ()
      ensures View() == InitialManager()
    {
      currentMode := 0;
      modeSelectActive := false;
      initialized := false;
      counter := 0;
      blinkCounter := 0;
      blinkState := false;
      pendingKeyRelease := None;
      releaseCounter := 0;
    }

    method SetModeColor(host: Host)
      modifies host
      ensures CoreView(host) == SetModeColorStep(old(CoreView(host)))
    {
      if host.pixelsPresent {
        host.ledWrites := host.ledWrites + [ModeColor(currentMode % ModeCount)];
      }
    }

    method UpdateBlink(host: Host)
      requires Valid(host)
      modifies this, host
      ensures Valid(host)
      ensures CoreView(host) == UpdateBlinkStep(old(CoreView(host)))
    {
      if modeSelectActive && host.pixelsPresent {
        blinkCounter := blinkCounter + 1;
        if blinkCounter >= BlinkPeriod {
          blinkCounter := 0;
          blinkState := !blinkState;
          if blinkState {
            host.ledWrites := host.ledWrites + [ModeColor(currentMode)];
          } else {
            host.ledWrites := host.ledWrites + [Black];
          }
        }
      }
    }

    /** Returns whether the rotation was taken as a mode change. */
    method CycleMode(host: Host, direction: int) returns (consumed: bool)
      requires Valid(host)
      modifies this, host
      ensures Valid(host)
      ensures consumed == old(modeSelectActive)
      ensures CoreView(host) == CycleModeStep(old(CoreView(host)), direction)
    {
      ghost var c := CoreView(host);
      if modeSelectActive {
        if direction > 0 {
          currentMode := (currentMode + 1) % ModeCount;
        } else {
          currentMode := (currentMode - 1) % ModeCount;
        }
        assert currentMode == NextMode(c.mm.currentMode, direction);
        SetModeColor(host);
        host.activeLayers := [currentMode];
        assert CoreView(host) == CycleModeStep(c, direction);
        return true;
      }
      return false;
    }

    method ToggleModeSelect(host: Host)
      requires Valid(host)
      modifies this, host
      ensures Valid(host)
      ensures CoreView(host) == ToggleModeSelectStep(old(CoreView(host)))
    {
      modeSelectActive := !modeSelectActive;
      blinkCounter := 0;
      blinkState := false;
      if !modeSelectActive {
        SetModeColor(host);
      }
    }

    method CheckInit(host: Host)
      requires Valid(host)
      modifies this, host
      ensures Valid(host)
      ensures CoreView(host) == CheckInitStep(old(CoreView(host)))
    {
      if !initialized {
        counter := counter + 1;
        if counter > InitDelay {
          SetModeColor(host);
          initialized := true;
        }
      }
    }

    method HandleKeyRelease(host: Host)
      requires Valid(host)
      modifies this, host
      ensures Valid(host)
      ensures CoreView(host) == HandleKeyReleaseStep(old(CoreView(host)))
    {
      if pendingKeyRelease.Some? {
        releaseCounter := releaseCounter + 1;
        if releaseCounter >= ReleaseDelay {
          host.keyEvents := host.keyEvents + [KeyUp(pendingKeyRelease.value)];
          pendingKeyRelease := None;
          releaseCounter := 0;
        }
      }
      // names the new state as a whole, so that Valid follows from the step's contract
      // names the new state as a whole, so that Valid follows from the step's contract
      assert CoreView(host) == HandleKeyReleaseStep(old(CoreView(host)));
    }
  }
}
