/** ModeSelectKey: the keymap entry whose press toggles mode selection. */
module ModeSelectKey {
  import opened Hardware
  import opened Modes

  /** A press toggles mode selection; the key reports itself unhandled. */
  method OnPress(manager: ModeManager, host: Host) returns (handled: bool)
    requires manager.Valid(host)
    modifies manager, host
    ensures manager.Valid(host)
    ensures !handled
    ensures manager.CoreView(host) == ToggleModeSelectStep(old(manager.CoreView(host)))
  {
    manager.ToggleModeSelect(host);
    handled := false;
  }

  /** A release does nothing and reports itself unhandled. */
  method OnRelease() returns (handled: bool)
    ensures !handled
  {
    handled := false;
  }
}
