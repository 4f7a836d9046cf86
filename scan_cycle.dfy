/** custom_before_matrix_scan: the per-scan coordinator, run by the host
    before every matrix scan. It ticks the start-up, blink and release
    timers, then samples the encoder and routes a detent either to a mode
    change (while selecting) or to a synthesised volume key. */
module ScanCycle {
  import opened Hardware
  import opened Encoder
  import opened Modes

  /** The media key a detent synthesises outside selection. */
  function VolumeKey(direction: int): Key
  {
    if direction > 0 then VolumeUp else VolumeDown
  }

  /** The host's events after the pending key, if any, is removed. */
  function ReleasePending(events: seq<HostEvent>, pending: Option<Key>): seq<HostEvent>
  {
    match pending
    case Some(p) => events + [KeyUp(p)]
    case None => events
  }

  /** If the host holds exactly the pending key, releasing it and pressing
      `k` leaves exactly `k` held, and at no point are two keys held. */
  lemma ReleaseThenPress(events: seq<HostEvent>, pending: Option<Key>, k: Key)
    ensures Held(events) == PendingSet(pending) && NeverTwoHeld(events) ==>
      var pressed := ReleasePending(events, pending) + [KeyDown(k)];
      Held(pressed) == {k} && NeverTwoHeld(pressed)
  {
    if Held(events) == PendingSet(pending) && NeverTwoHeld(events) {
      var released := ReleasePending(events, pending);
      if pending.Some? {
        HeldSnoc(events, KeyUp(pending.value));
        NeverTwoHeldSnoc(events, KeyUp(pending.value));
      }
      assert Held(released) == {} && NeverTwoHeld(released);
      HeldSnoc(released, KeyDown(k));
      NeverTwoHeldSnoc(released, KeyDown(k));
    }
  }

  /** The normal-mode branch: release whatever synthesised key is pending
      (even the same key), press the new one and restart its timer. */
  function SendVolumeKeyStep(c: Core, direction: int): (r: Core)
    ensures r.mm == c.mm.(pendingKeyRelease := r.mm.pendingKeyRelease, releaseCounter := r.mm.releaseCounter)
    ensures r.host == c.host.(keyEvents := r.host.keyEvents)
    ensures r.mm.pendingKeyRelease == Some(VolumeKey(direction)) && r.mm.releaseCounter == 0
    ensures Invariant(c) ==> Invariant(r) && Held(r.host.keyEvents) == {VolumeKey(direction)}
  {
    var k := VolumeKey(direction);
    ReleaseThenPress(c.host.keyEvents, c.mm.pendingKeyRelease, k);
    Core(c.mm.(pendingKeyRelease := Some(k), releaseCounter := 0),
         c.host.(keyEvents := ReleasePending(c.host.keyEvents, c.mm.pendingKeyRelease) + [KeyDown(k)]))
  }

  /** The three timer ticks that run, in this order, before the encoder is
      sampled. */
  function Bookkeeping(c: Core): (r: Core)
    requires 0 <= c.mm.currentMode < ModeCount
    ensures r.mm.currentMode == c.mm.currentMode
    ensures r.mm.modeSelectActive == c.mm.modeSelectActive
    ensures var k := HandleKeyReleaseStep(c);
      r.host.keyEvents == k.host.keyEvents && r.mm.pendingKeyRelease == k.mm.pendingKeyRelease &&
      r.mm.releaseCounter == k.mm.releaseCounter
    ensures Invariant(c) ==> Invariant(r)
  {
    HandleKeyReleaseStep(UpdateBlinkStep(CheckInitStep(c)))
  }

  /** One call of custom_before_matrix_scan, given the previous level of pin
      A and this scan's pin levels. */
  function ScanStep(lastA: bool, c: Core, a: bool, b: bool): (r: Core)
    requires 0 <= c.mm.currentMode < ModeCount
    ensures 0 <= r.mm.currentMode < ModeCount
    ensures Invariant(c) ==> Invariant(r)
  {
    var t := Bookkeeping(c);
    var direction := Decode(lastA, a, b);
    if direction == 0 then t
    else if t.mm.modeSelectActive then CycleModeStep(t, direction)
    else SendVolumeKeyStep(t, direction)
  }

  /** A detent while selecting is a cycle_mode of the ticked state: mode,
      layer list and a fitted LED change, and no key event comes from it. Outside selection the pending key, if any, is released before
      the new one is pressed, and the new one is then the only key held. The
      routing sees the selection flag as it was before the scan. */
  lemma RotationRouting(lastA: bool, c: Core, a: bool, b: bool)
    requires Invariant(c)
    requires Decode(lastA, a, b) != 0
    ensures var t := Bookkeeping(c);
      var r := ScanStep(lastA, c, a, b);
      var d := Decode(lastA, a, b);
      if c.mm.modeSelectActive then
        r == CycleModeStep(t, d) &&
        r.host.keyEvents == t.host.keyEvents &&
        r.mm.currentMode == NextMode(c.mm.currentMode, d) &&
        r.mm.pendingKeyRelease == t.mm.pendingKeyRelease
      else
        var k := if b then VolumeDown else VolumeUp;
        r.host.keyEvents == t.host.keyEvents +
          (if t.mm.pendingKeyRelease.Some? then [KeyUp(t.mm.pendingKeyRelease.value)] else []) +
          [KeyDown(k)] &&
        r.mm.pendingKeyRelease == Some(k) && r.mm.releaseCounter == 0 &&
        Held(r.host.keyEvents) == {k} &&
        r.mm.currentMode == c.mm.currentMode
  {
    var t := Bookkeeping(c);
    if !c.mm.modeSelectActive {
      assert Invariant(SendVolumeKeyStep(t, Decode(lastA, a, b)));
    }
  }

  /** A scan in which the encoder reports nothing only runs the three ticks. */
  lemma NoDetentScan(lastA: bool, c: Core, a: bool, b: bool)
    requires 0 <= c.mm.currentMode < ModeCount
    requires Decode(lastA, a, b) == 0
    ensures ScanStep(lastA, c, a, b) == Bookkeeping(c)
  {
  }

  /** A key synthesised on one scan is still down after the next scan and
      released on the one after that, provided neither scan sees a detent;
      nothing else touches the keys in between. */
  lemma ReleasedOnSecondScan(lastA: bool, c: Core, a1: bool, b1: bool, a2: bool, b2: bool)
    requires Invariant(c)
    requires c.mm.pendingKeyRelease.Some? && c.mm.releaseCounter == 0
    requires Decode(lastA, a1, b1) == 0 && Decode(a1, a2, b2) == 0
    ensures var k := c.mm.pendingKeyRelease.value;
      var c1 := ScanStep(lastA, c, a1, b1);
      var c2 := ScanStep(a1, c1, a2, b2);
      c1.mm.pendingKeyRelease == Some(k) && c1.host.keyEvents == c.host.keyEvents &&
      c2.mm.pendingKeyRelease.None? && c2.host.keyEvents == c.host.keyEvents + [KeyUp(k)]
  {
    NoDetentScan(lastA, c, a1, b1);
    var c1 := ScanStep(lastA, c, a1, b1);
    NoDetentScan(a1, c1, a2, b2);
  }

  /** n scans with both pins high, so that the encoder reports nothing. */
  function IdleScans(c: Core, n: nat): (r: Core)
    requires Invariant(c)
    ensures Invariant(r)
    decreases n
  {
    if n == 0 then c else ScanStep(true, IdleScans(c, n - 1), true, true)
  }

  /** Outside selection, with no key pending and no detent, a scan only
      advances the start-up delay. */
  lemma QuietScan(c: Core)
    requires Invariant(c)
    requires !c.mm.modeSelectActive && c.mm.pendingKeyRelease.None?
    ensures ScanStep(true, c, true, true) == CheckInitStep(c)
  {
    NoDetentScan(true, c, true, true);
    var s1 := CheckInitStep(c);
    assert UpdateBlinkStep(s1) == s1;
    assert HandleKeyReleaseStep(s1) == s1;
  }

  /** The scan after n idle scans from power-on, in closed form. */
  lemma PowerOnQuietScan(pixelsPresent: bool, n: nat, p: Core)
    requires var c := Initial(pixelsPresent);
      p.mm == c.mm.(counter := if n > InitDelay then InitDelay + 1 else n, initialized := n > InitDelay) &&
      p.host == c.host.(ledWrites := c.host.ledWrites +
        (if n > InitDelay && pixelsPresent then [ModeColor(0)] else []))
    ensures var c := Initial(pixelsPresent);
      var r := ScanStep(true, p, true, true);
      r.mm == c.mm.(counter := if n + 1 > InitDelay then InitDelay + 1 else n + 1, initialized := n + 1 > InitDelay) &&
      r.host == c.host.(ledWrites := c.host.ledWrites +
        (if n + 1 > InitDelay && pixelsPresent then [ModeColor(0)] else []))
  {
    NoDetentScan(true, p, true, true);
    var s1 := CheckInitStep(p);
    assert UpdateBlinkStep(s1) == s1;
    assert HandleKeyReleaseStep(s1) == s1;
  }

  /** From power-on, with no input, the first ten scans write nothing; the
      eleventh writes the mode-0 colour once and marks the manager
      initialised; later scans change nothing. No key is ever touched. */
  lemma {:induction false} InitColourOnEleventhScan(pixelsPresent: bool, n: nat)
    ensures var c := Initial(pixelsPresent);
      var r := IdleScans(c, n);
      r.mm == c.mm.(counter := if n > InitDelay then InitDelay + 1 else n, initialized := n > InitDelay) &&
      r.host == c.host.(ledWrites := c.host.ledWrites +
        (if n > InitDelay && pixelsPresent then [ModeColor(0)] else []))
  {
    if n > 0 {
      InitColourOnEleventhScan(pixelsPresent, n - 1);
      PowerOnQuietScan(pixelsPresent, n - 1, IdleScans(Initial(pixelsPresent), n - 1));
    }
  }

  /** Pressing the mode-select key in mode 0 and then turning one detent
      clockwise (B low at the falling edge of A) gives mode 1 and layer 1,
      shows its colour, and sends no volume key. */
  lemma SelectThenClockwise(c: Core)
    requires Invariant(c)
    requires !c.mm.modeSelectActive && c.mm.initialized && c.mm.pendingKeyRelease.None?
    requires c.mm.currentMode == 0
    ensures var r := ScanStep(true, ToggleModeSelectStep(c), false, false);
      r.mm.currentMode == 1 && r.mm.modeSelectActive && r.host.activeLayers == [1] &&
      r.host.keyEvents == c.host.keyEvents &&
      r.host.ledWrites == c.host.ledWrites + (if c.host.pixelsPresent then [ModeColor(1)] else [])
  {
  }

  // ---------------------------------------------------------------------
  // Whole runs: interleavings of scans and mode-select key presses.

  datatype Input = Sample(a: bool, b: bool) | PressModeSelect | ReleaseModeSelect

  /** The encoder's remembered level of A and the rest of the state. */
  datatype Pad = Pad(lastA: bool, core: Core)

  function Step(p: Pad, input: Input): (r: Pad)
    requires Invariant(p.core)
    ensures Invariant(r.core)
  {
    match input
    case Sample(a, b) => Pad(a, ScanStep(p.lastA, p.core, a, b))
    case PressModeSelect => Pad(p.lastA, ToggleModeSelectStep(p.core))
    case ReleaseModeSelect => p
  }

  function Run(p: Pad, inputs: seq<Input>): (r: Pad)
    requires Invariant(p.core)
    ensures Invariant(r.core)
    decreases |inputs|
  {
    if inputs == [] then p else Run(Step(p, inputs[0]), inputs[1..])
  }

  /** Whatever the pins and the mode-select key do after power-on, the mode
      stays in range with the keymap layer beside it, the host holds exactly
      the pending synthesised key, and at no point of the host's event stream
      are two synthesised keys held. */
  lemma AtMostOneKeyHeld(pixelsPresent: bool, initialA: bool, inputs: seq<Input>)
    ensures var r := Run(Pad(initialA, Initial(pixelsPresent)), inputs).core;
      0 <= r.mm.currentMode < ModeCount && r.host.activeLayers == [r.mm.currentMode] &&
      Held(r.host.keyEvents) == PendingSet(r.mm.pendingKeyRelease) &&
      |Held(r.host.keyEvents)| <= 1 &&
      NeverTwoHeld(r.host.keyEvents)
  {
  }

  // ---------------------------------------------------------------------
  // The coordinator over the objects.

  /** The module-level set-up: the LED (filled black when fitted), the
      encoder (remembering pin A's level) and the mode manager. */
  method Startup(pixelsPresent: bool, initialA: bool)
    returns (encoder: ManualEncoder, manager: ModeManager, host: Host)
    ensures fresh(encoder) && fresh(manager) && fresh(host)
    ensures encoder.lastA == initialA
    ensures manager.CoreView(host) == Initial(pixelsPresent)
    ensures manager.Valid(host)
  {
    host := new Host(pixelsPresent);
    encoder := new ManualEncoder(initialA);
    manager := new ModeManager();
  }

  /** The normal-mode branch of the coordinator, over the objects. */
  method SendVolumeKey(manager: ModeManager, host: Host, direction: int)
    requires manager.Valid(host)
    modifies manager, host
    ensures manager.Valid(host)
    ensures manager.CoreView(host) == SendVolumeKeyStep(old(manager.CoreView(host)), direction)
  {
    ghost var c := manager.CoreView(host);
    if manager.pendingKeyRelease.Some? {
      host.keyEvents := host.keyEvents + [KeyUp(manager.pendingKeyRelease.value)];
    }
    if direction > 0 {
      host.keyEvents := host.keyEvents + [KeyDown(VolumeUp)];
      manager.pendingKeyRelease := Some(VolumeUp);
    } else {
      host.keyEvents := host.keyEvents + [KeyDown(VolumeDown)];
      manager.pendingKeyRelease := Some(VolumeDown);
    }
    manager.releaseCounter := 0;
    // the two halves of the new state, asserted separately to keep the proof cheap
    assert manager.View() == SendVolumeKeyStep(c, direction).mm;
    assert host.View() == SendVolumeKeyStep(c, direction).host;
  }

  method BeforeMatrixScan(encoder: ManualEncoder, manager: ModeManager, host: Host, a: bool, b: bool)
    requires manager.Valid(host)
    modifies encoder, manager, host
    ensures manager.Valid(host)
    ensures encoder.lastA == a
    ensures manager.CoreView(host) == ScanStep(old(encoder.lastA), old(manager.CoreView(host)), a, b)
  {
    ghost var c := manager.CoreView(host);
    manager.CheckInit(host);
    manager.UpdateBlink(host);
    manager.HandleKeyRelease(host);
    ghost var t := manager.CoreView(host);
    assert t == Bookkeeping(c);
    var direction := encoder.Update(a, b);
    assert manager.CoreView(host) == t;
    if direction != 0 {
      if manager.modeSelectActive {
        var consumed := manager.CycleMode(host, direction);
      } else {
        SendVolumeKey(manager, host, direction);
      }
    }
  }
}
