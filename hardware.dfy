/** The host side of the macropad's input layer: the KMK keyboard's key and
    layer interface and the optional NeoPixel status LED, reduced to what the
    input layer observably does to them. */
module Hardware {

  /** One 8-bit colour channel. */
  type Channel = x: int | 0 <= x < 256

  datatype Color = Color(r: Channel, g: Channel, b: Channel)

  /** The LED switched off. */
  const Black := Color(0, 0, 0)

  /** MODE_COLORS, indexed by mode: numpad red, media green, macro blue. */
  const ModeColors: seq<Color> := [Color(255, 0, 0), Color(0, 255, 0), Color(0, 0, 255)]

  /** The colour of mode `i`; it is never black, so a mode colour cannot be
      mistaken for the dark half of a blink. */
  function ModeColor(i: int): (c: Color)
    requires 0 <= i < |ModeColors|
    ensures c != Black
  {
    ModeColors[i]
  }

  /** Each mode has a colour of its own. */
  lemma ModeColorsDistinct(i: int, j: int)
    requires 0 <= i < |ModeColors| && 0 <= j < |ModeColors|
    ensures ModeColor(i) == ModeColor(j) <==> i == j
  {
  }

  /** The two media keys the encoder synthesises: KC.VOLU and KC.VOLD. */
  datatype Key = VolumeUp | VolumeDown

  /** One call into the host keyboard: `add_key` is KeyDown, `remove_key` is KeyUp. */
  datatype HostEvent = KeyDown(key: Key) | KeyUp(key: Key)

  /** The synthesised keys the host holds once it has seen `events`. The host
      keeps a set, so adding a held key or removing a released one is a no-op. */
  function Held(events: seq<HostEvent>): set<Key>
    decreases |events|
  {
    if events == [] then {}
    else
      var before := Held(events[..|events| - 1]);
      match events[|events| - 1]
      case KeyDown(k) => before + {k}
      case KeyUp(k) => before - {k}
  }

  lemma HeldSnoc(events: seq<HostEvent>, e: HostEvent)
    ensures Held(events + [e]) == if e.KeyDown? then Held(events) + {e.key} else Held(events) - {e.key}
  {
    assert (events + [e])[..|events|] == events;
  }

  /** At no point of the event stream does the host hold two synthesised
      keys: every prefix leaves at most one held. */
  predicate NeverTwoHeld(events: seq<HostEvent>)
    decreases |events|
  {
    events == [] || (NeverTwoHeld(events[..|events| - 1]) && |Held(events)| <= 1)
  }

  lemma NeverTwoHeldSnoc(events: seq<HostEvent>, e: HostEvent)
    ensures NeverTwoHeld(events + [e]) <==> NeverTwoHeld(events) && |Held(events + [e])| <= 1
  {
    assert (events + [e])[..|events|] == events;
  }

  /** NeverTwoHeld says what its name says, prefix by prefix. */
  lemma {:induction false} NeverTwoHeldPrefixes(events: seq<HostEvent>)
    ensures NeverTwoHeld(events) <==> forall i :: 0 <= i <= |events| ==> |Held(events[..i])| <= 1
  {
    if events != [] {
      var init := events[..|events| - 1];
      NeverTwoHeldPrefixes(init);
      if NeverTwoHeld(events) {
        forall i | 0 <= i <= |events|
          ensures |Held(events[..i])| <= 1
        {
          if i < |events| {
            assert events[..i] == init[..i];
          } else {
            assert events[..i] == events;
          }
        }
      }
      if forall i :: 0 <= i <= |events| ==> |Held(events[..i])| <= 1 {
        forall i | 0 <= i <= |init|
          ensures |Held(init[..i])| <= 1
        {
          assert events[..i] == init[..i];
        }
        assert events[..|events|] == events;
      }
    }
  }

  /** Everything the input layer has done to the host so far: whether an LED
      is fitted, every colour written to it, every key call, and the active
      keymap layers. */
  datatype HostView = HostView(pixelsPresent: bool, ledWrites: seq<Color>,
                               keyEvents: seq<HostEvent>, activeLayers: seq<int>)

  /** The host at start-up: a fitted LED has been filled black, no key has
      been touched, and the keyboard is on layer 0. */
  function InitialHost(pixelsPresent: bool): HostView
  {
    HostView(pixelsPresent, if pixelsPresent then [Black] else [], [], [0])
  }

  /** The KMK keyboard and the optional NeoPixel. An LED that failed to
      initialise, or whose write raised, is modelled as absent. */
  class Host {
    const pixelsPresent: bool
    var ledWrites: seq<Color>
    var keyEvents: seq<HostEvent>
    var activeLayers: seq<int>

    ghost function View(): HostView
      reads this
    {
      HostView(pixelsPresent, ledWrites, keyEvents, activeLayers)
    }

    constructor (pixelsPresent: bool)
      ensures View() == InitialHost(pixelsPresent)
    {
      this.pixelsPresent := pixelsPresent;
      ledWrites := if pixelsPresent then [Black] else [];
      keyEvents := [];
      activeLayers := [0];
    }
  }
}
