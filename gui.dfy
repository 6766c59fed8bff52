/**
 * The click configuration (its types and their defaults) and the control
 * surface's state-changing reactions to widget changes (src/gui.rs).
 *
 * Each widget reaction in `MainApp::update` fires when egui reports the widget
 * as `changed()`, which for drag values, selectable values and radio values
 * means the user picked a value different from the current one. A reaction
 * method here takes that newly picked value and does nothing when it equals
 * the current one.
 */
module Gui {
  import opened Wrappers

  /** One more than the largest `usize` of a 64-bit target. */
  const USIZE_LIMIT: int := 0x1_0000_0000_0000_0000

  /** Rust's `usize`: the widgets of the control surface clamp to this range. */
  type Usize = x: nat | x < USIZE_LIMIT

  /** How long to wait between two emission rounds, split for display. */
  datatype ClickInterval = ClickInterval(hours: Usize, minutes: Usize, seconds: Usize, milliseconds: Usize)

  datatype MouseButton = Left | Middle | Right

  datatype ClickType = Single | Double

  /** The button and arity, always sent together on the options channel. */
  datatype ClickOptions = ClickOptions(mouseButton: MouseButton, clickType: ClickType)

  /** Where a click lands: wherever the cursor is, or a fixed coordinate. */
  datatype ClickPosition = CurrentCursorPosition | Custom(x: Usize, y: Usize)

  /** The four drag values of the interval group. */
  datatype IntervalField = Hours | Minutes | Seconds | Milliseconds

  // The derived `Default` values (src/gui.rs:5-42).
  const DefaultClickInterval: ClickInterval := ClickInterval(0, 0, 0, 0)
  const DefaultMouseButton: MouseButton := Left
  const DefaultClickType: ClickType := Single
  const DefaultClickOptions: ClickOptions := ClickOptions(DefaultMouseButton, DefaultClickType)
  const DefaultClickPosition: ClickPosition := CurrentCursorPosition

  /** The interval field that the given drag value edits. */
  function FieldOf(ci: ClickInterval, f: IntervalField): Usize
  {
    match f
    case Hours => ci.hours
    case Minutes => ci.minutes
    case Seconds => ci.seconds
    case Milliseconds => ci.milliseconds
  }

  /** `ci` with exactly the field `f` replaced by `v`. */
  function WithField(ci: ClickInterval, f: IntervalField, v: Usize): (r: ClickInterval)
    ensures FieldOf(r, f) == v
    ensures forall g :: g != f ==> FieldOf(r, g) == FieldOf(ci, g)
  {
    match f
    case Hours => ci.(hours := v)
    case Minutes => ci.(minutes := v)
    case Seconds => ci.(seconds := v)
    case Milliseconds => ci.(milliseconds := v)
  }

  /**
   * The shared run flag (`Arc<Mutex<bool>>`). A lock attempt either succeeds,
   * giving access to `value`, or fails because the mutex is poisoned; the
   * caller passes which of the two happened.
   */
  class RunFlag {
    var value: bool

    /** `Arc::new(Mutex::new(false))`: the engine starts idle. */
    constructor ()
      ensures !value
    {
      value := false;
    }

    /** `lock()` followed by a read of the guarded value. */
    function TryRead(lockOk: bool): (r: Option<bool>)
      reads this
      ensures r.Some? <==> lockOk
      ensures r.Some? ==> r.value == value
    {
      if lockOk then Some(value) else None
    }
  }

  /**
   * The control surface: its own copy of the configuration, what it has sent
   * on each of the three channels and not yet been received, and the shared
   * run flag.
   */
  class MainApp {
    var clickInterval: ClickInterval
    var clickOptions: ClickOptions
    var clickPosition: ClickPosition
    var intervalOutbox: seq<ClickInterval>
    var optionsOutbox: seq<ClickOptions>
    var positionOutbox: seq<ClickPosition>
    const isRunning: RunFlag

    /** `MainApp::new`: default configuration, freshly created channels. */
    constructor (isRunning: RunFlag)
      ensures this.isRunning == isRunning
      ensures clickInterval == DefaultClickInterval
      ensures clickOptions == ClickOptions(Left, Single)
      ensures clickPosition == CurrentCursorPosition
      ensures intervalOutbox == [] && optionsOutbox == [] && positionOutbox == []
    {
      this.isRunning := isRunning;
      clickInterval := DefaultClickInterval;
      clickOptions := DefaultClickOptions;
      clickPosition := DefaultClickPosition;
      intervalOutbox, optionsOutbox, positionOutbox := [], [], [];
    }

    /**
     * Dragging the hours, minutes, seconds or milliseconds value to `v`
     * updates that field and sends the whole interval.
     */
    method EditInterval(f: IntervalField, v: Usize)
      modifies this`clickInterval, this`intervalOutbox
      ensures FieldOf(clickInterval, f) == v
      ensures forall g :: g != f ==> FieldOf(clickInterval, g) == FieldOf(old(clickInterval), g)
      ensures intervalOutbox == if v == FieldOf(old(clickInterval), f) then old(intervalOutbox)
                                else old(intervalOutbox) + [clickInterval]
    {
      if v != FieldOf(clickInterval, f) {
        clickInterval := WithField(clickInterval, f, v);
        intervalOutbox := intervalOutbox + [clickInterval];
      }
    }

    /**
     * Picking a mouse button. Left and Right send the whole options value;
     * Middle's handler is empty, so Middle is stored but never sent.
     */
    method SelectMouseButton(b: MouseButton)
      modifies this`clickOptions, this`optionsOutbox
      ensures clickOptions == old(clickOptions).(mouseButton := b)
      ensures optionsOutbox == if b == old(clickOptions).mouseButton || b == Middle then old(optionsOutbox)
                               else old(optionsOutbox) + [clickOptions]
    {
      if b != clickOptions.mouseButton {
        clickOptions := clickOptions.(mouseButton := b);
        if b != Middle {
          optionsOutbox := optionsOutbox + [clickOptions];
        }
      }
    }

    /** Picking Single or Double: stored locally, never sent. */
    method SelectClickType(t: ClickType)
      modifies this`clickOptions
      ensures clickOptions == old(clickOptions).(clickType := t)
    {
      clickOptions := clickOptions.(clickType := t);
    }

    /** The "Current Cursor Position" radio: stored and sent when it changes. */
    method SelectCurrentCursorPosition()
      modifies this`clickPosition, this`positionOutbox
      ensures clickPosition == CurrentCursorPosition
      ensures positionOutbox == if old(clickPosition) == CurrentCursorPosition then old(positionOutbox)
                                else old(positionOutbox) + [CurrentCursorPosition]
    {
      if clickPosition != CurrentCursorPosition {
        clickPosition := CurrentCursorPosition;
        positionOutbox := positionOutbox + [clickPosition];
      }
    }

    /**
     * The custom-position radio: its value is `Custom{0,0}`, so it resets any
     * other position, custom coordinates included, to the origin, and sends
     * nothing.
     */
    method SelectCustomPosition()
      modifies this`clickPosition
      ensures clickPosition == Custom(0, 0)
    {
      if clickPosition != Custom(0, 0) {
        clickPosition := Custom(0, 0);
      }
    }

    /**
     * Dragging the X value. While the position is custom this stores and
     * sends the new coordinate with Y kept; otherwise the drag value is bound
     * to a temporary and has no effect.
     */
    method EditX(v: Usize)
      modifies this`clickPosition, this`positionOutbox
      ensures old(clickPosition).Custom? ==> clickPosition == Custom(v, old(clickPosition).y)
      ensures old(clickPosition).CurrentCursorPosition? ==> clickPosition == old(clickPosition)
      ensures positionOutbox == if old(clickPosition).Custom? && old(clickPosition).x != v
                                then old(positionOutbox) + [clickPosition]
                                else old(positionOutbox)
    {
      if clickPosition.Custom? && clickPosition.x != v {
        clickPosition := Custom(v, clickPosition.y);
        positionOutbox := positionOutbox + [clickPosition];
      }
    }

    /** Dragging the Y value: as `EditX`, with X kept. */
    method EditY(v: Usize)
      modifies this`clickPosition, this`positionOutbox
      ensures old(clickPosition).Custom? ==> clickPosition == Custom(old(clickPosition).x, v)
      ensures old(clickPosition).CurrentCursorPosition? ==> clickPosition == old(clickPosition)
      ensures positionOutbox == if old(clickPosition).Custom? && old(clickPosition).y != v
                                then old(positionOutbox) + [clickPosition]
                                else old(positionOutbox)
    {
      if clickPosition.Custom? && clickPosition.y != v {
        clickPosition := Custom(clickPosition.x, v);
        positionOutbox := positionOutbox + [clickPosition];
      }
    }

    /** The Start button: sets the run flag when the lock is obtained. */
    method Start(lockOk: bool)
      modifies isRunning
      ensures isRunning.value == (lockOk || old(isRunning.value))
    {
      if lockOk {
        isRunning.value := true;
      }
    }

    /** The Stop button: clears the run flag when the lock is obtained. */
    method Stop(lockOk: bool)
      modifies isRunning
      ensures isRunning.value == (!lockOk && old(isRunning.value))
    {
      if lockOk {
        isRunning.value := false;
      }
    }

    /** The Toggle button: inverts the value read under the lock. */
    method Toggle(lockOk: bool)
      modifies isRunning
      ensures isRunning.value == (if lockOk then !old(isRunning.value) else old(isRunning.value))
    {
      if lockOk {
        isRunning.value := !isRunning.value;
      }
    }

    /**
     * Two Toggle clicks restore the flag. A poisoned mutex stays poisoned, so
     * both clicks see the same lock outcome.
     */
    method ToggleTwice(lockOk: bool)
      modifies isRunning
      ensures isRunning.value == old(isRunning.value)
    {
      Toggle(lockOk);
      Toggle(lockOk);
    }
  }
}
