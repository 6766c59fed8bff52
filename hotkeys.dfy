/**
 * The keyboard arm of the event loop in src/window.rs: the F6, F7 and F8
 * hotkeys write the shared run flag.
 */
module Hotkeys {
  import opened Wrappers
  import Gui

  datatype ElementState = Pressed | Released

  /** The virtual key codes the event loop tells apart here. */
  datatype Key = F6 | F7 | F8 | OtherKey

  /**
   * The keyboard arm of the event loop. Releasing F6 sets the run flag and
   * releasing F7 clears it; both unwrap the lock, so a poisoned mutex panics
   * instead. Releasing F8 inverts the flag when the lock is obtained. Every
   * other key, and every press, leaves the flag alone.
   */
  method HandleKeyboardInput(flag: Gui.RunFlag, state: ElementState, key: Option<Key>, lockOk: bool)
    returns (panicked: bool)
    modifies flag
    ensures panicked <==> state == Released && (key == Some(F6) || key == Some(F7)) && !lockOk
    ensures state == Released && key == Some(F6) && lockOk ==> flag.value
    ensures state == Released && key == Some(F7) && lockOk ==> !flag.value
    ensures state == Released && key == Some(F8) && lockOk ==> flag.value == !old(flag.value)
    ensures state == Pressed || !lockOk || key == None || key == Some(OtherKey) ==> flag.value == old(flag.value)
  {
    panicked := false;
    if state == Released {
      match key {
        case Some(F6) =>
          if lockOk { flag.value := true; } else { panicked := true; }
        case Some(F7) =>
          if lockOk { flag.value := false; } else { panicked := true; }
        case Some(F8) =>
          if lockOk { flag.value := !flag.value; }
        case _ =>
      }
    }
  }

  /** Two F8 releases restore the run flag (a poisoned mutex stays poisoned). */
  method ReleaseF8Twice(flag: Gui.RunFlag, lockOk: bool)
    modifies flag
    ensures flag.value == old(flag.value)
  {
    var _ := HandleKeyboardInput(flag, Released, Some(F8), lockOk);
    var _ := HandleKeyboardInput(flag, Released, Some(F8), lockOk);
  }
}
