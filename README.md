# Auto clicker: the control surface and the click engine

The program is a desktop auto clicker. A window (the control surface, `MainApp`)
lets the user set a click interval (hours, minutes, seconds, milliseconds), a
mouse button, a click type (single or double) and a click position (the current
cursor position or fixed coordinates), and start, stop or toggle clicking. The
surface sends most configuration changes over one of three channels to a
background thread (the click engine); the exceptions are listed below under
"Behaviour of the code that the model keeps as written". The engine loops forever. Each cycle it
reads the shared run flag (`Arc<Mutex<bool>>`) and takes at most one message
from each channel. While running, it moves the cursor to the custom position
(if there is one), presses and releases the button once or twice, and sleeps
the configured interval. Every cycle then sleeps 5 ms. The hotkeys F6, F7 and F8
write the same run flag as the Start, Stop and Toggle buttons.

The model has five modules:

- `Wrappers` (wrappers.dfy) holds `Option`.
- `Gui` (gui.dfy) holds the configuration types and their defaults, the shared
  run flag as a class `RunFlag`, and the control surface as a class `MainApp`.
  Each of its methods is one widget reaction of `MainApp::update`. What the
  surface has sent but the engine has not yet received is kept in three
  outbox sequences.
- `Timing` (timing.dfy) holds `convert_time_to_duration` and `Duration`.
- `Hotkeys` (hotkeys.dfy) holds the keyboard arm of the window event loop.
- `ClickEngine` (engine.dfy) holds the engine thread as a class `Engine`. Its
  fields are the loop's five locals, the three receive queues and a trace. The
  trace records, in order, every dispatch attempt and every sleep.

The engine's methods are proved against pure functions:

- `PollLocals` and `PollInbox` specify the polling half of a cycle.
- `CycleActions` specifies what a cycle appends to the trace.
- `RunLocals`, `RunInbox` and `RunTrace` specify any number of cycles.

Lemmas state what these functions promise: which message changes which local,
the order of the synthetic events, the pacing, idle behaviour, and which message
is in effect after `n` cycles.

Outside influences become parameters:

- The outcome of each lock attempt is a parameter `lockOk: bool`, false when
  the mutex is poisoned. The engine reads the flag through `RunFlag.TryRead`,
  which gives `None` in that case.
- The outcome of each `rdev::simulate` call is a parameter
  `os: nat -> bool`, indexed by the position of the attempt in the trace.
  A failed dispatch is only reported, so the trace does not depend on it.
- Sleeping appends a `Sleep(ms)` entry to the trace instead of blocking.

### Widget semantics

egui reports a drag value, selectable value or radio value as `changed()`
only when the user picks a value that differs from the current one. Each
reaction method therefore takes the newly picked value and does nothing when
it equals the current one.

### How the engine handles queues, overflow and a poisoned lock

- **Messages are taken oldest first.** The engine calls `try_recv` once per
  channel per cycle, which takes the oldest queued message. With `k` messages
  queued, the newest takes effect only after `k` cycles. `RunPosition`,
  `RunOptions` and `RunDelay` state this.
- **The interval does not saturate.** `convert_time_to_duration` uses
  unchecked `usize` arithmetic (src/window.rs:409-410). The model therefore
  requires the millisecond total to fit in a 64-bit `usize` (`Timing.Fits`).
- **A poisoned mutex keeps the previous state.** When the lock fails, the
  engine keeps its previous `is_running` value; it does not fall back to idle
  (src/window.rs:254-256).

### Behaviour of the code that the model keeps as written

- Choosing Middle stores the button but never sends it (src/gui.rs:138-145).
- Choosing a click type never sends it (src/gui.rs:163-172).
- The custom-position radio resets the position to `Custom{0,0}` and sends
  nothing (src/gui.rs:194-198).
- The X and Y drag values only have an effect while the position is custom
  (src/gui.rs:199-215).
- F6 and F7 call `lock().unwrap()`, so a poisoned mutex panics. F8 and the
  three buttons skip the write instead.

## Model

| member | source | states |
|---|---|---|
| Gui.WithField | src/gui.rs:87-113 | the dragged interval field takes the new value and the other three fields are unchanged |
| Gui.RunFlag.constructor | src/window.rs:243 | the shared run flag starts false (idle) |
| Gui.RunFlag.TryRead | src/window.rs:254-256 | a lock attempt yields the guarded value exactly when the mutex is not poisoned; `Engine.Cycle` reads the run flag through it |
| Gui.MainApp.constructor | src/gui.rs:55-78 | the surface starts with the default interval 0:0:0.0, Left/Single and the current cursor position, and nothing sent |
| Gui.MainApp.EditInterval | src/gui.rs:87-113 | a drag stores the new field, keeps the other fields, and sends the whole new interval exactly when the value changed |
| Gui.MainApp.SelectMouseButton | src/gui.rs:123-156 | the picked button is stored; the options are sent exactly when it changed to Left or Right, never for Middle |
| Gui.MainApp.SelectClickType | src/gui.rs:158-173 | the picked click type is stored, the button kept, and nothing is sent |
| Gui.MainApp.SelectCurrentCursorPosition | src/gui.rs:182-191 | the position becomes the current cursor position and is sent exactly when it changed |
| Gui.MainApp.SelectCustomPosition | src/gui.rs:194-198 | the position becomes `Custom{0,0}` and nothing is sent |
| Gui.MainApp.EditX | src/gui.rs:199-204 | while custom, the new X is stored with Y kept and sent when it changed; otherwise, nothing changes |
| Gui.MainApp.EditY | src/gui.rs:205-209 | while custom, the new Y is stored with X kept and sent when it changed; otherwise, nothing changes |
| Gui.MainApp.Start | src/gui.rs:220-224 | the run flag becomes true, unless the lock fails, when it is unchanged |
| Gui.MainApp.Stop | src/gui.rs:227-231 | the run flag becomes false, unless the lock fails, when it is unchanged |
| Gui.MainApp.Toggle | src/gui.rs:234-238 | the run flag is inverted, unless the lock fails, when it is unchanged |
| Gui.MainApp.ToggleTwice | src/gui.rs:234-238 | two Toggle clicks restore the run flag |
| Timing.ConvertTimeToDuration | src/window.rs:403-414 | the duration is exactly the millisecond sum of the four fields, with a sub-second part of whole milliseconds below one second and seconds within `u64` |
| Timing.ConvertExamples | src/window.rs:403-414 | 1:1:1.001 converts to 3661 s 1 ms, and 500 ms converts to 0 s 500 000 000 ns |
| Timing.MillisOrder | src/window.rs:411-413 | among whole-millisecond durations, the millisecond count decides the order |
| Timing.ConvertMonotone | src/window.rs:409-413 | increasing any field never shortens the converted duration |
| Hotkeys.HandleKeyboardInput | src/window.rs:354-370 | releasing F6 sets and releasing F7 clears the flag, and each panics exactly when the lock fails; releasing F8 inverts the flag when locked; presses and other keys change nothing |
| Hotkeys.ReleaseF8Twice | src/window.rs:363-367 | two F8 releases restore the run flag |
| ClickEngine.ToRdevButton | src/window.rs:268-272 | every configured button maps to a named rdev button, never `Unknown`; that each maps to the button of the same name holds by definition |
| ClickEngine.ClickTimes | src/window.rs:289-292 | a round has one or two press/release pairs; `ClickActionsShape` states what they dispatch |
| ClickEngine.ToRdevButtonInjective | src/window.rs:268-272 | distinct configured buttons map to distinct rdev buttons |
| ClickEngine.PollLocals | src/window.rs:254-279 | polling keeps the delay whole milliseconds and the button a named one |
| ClickEngine.PollInbox | src/window.rs:258-279 | after a receive, every queued interval still converts without overflow |
| ClickEngine.PollTakesOnlyHeads | src/window.rs:258-279 | a cycle takes at most the oldest message of each channel and leaves the rest queued in order |
| ClickEngine.PollNothingPending | src/window.rs:254-279 | with empty channels and a failed lock, a poll changes no local |
| ClickEngine.PollPoisonedLock | src/window.rs:254-256 | a failed lock keeps the previous run state |
| ClickEngine.PollIntervalOnly | src/window.rs:258-265 | an interval message sets the delay to its conversion and changes nothing else |
| ClickEngine.PollOptionsOnly | src/window.rs:267-275 | an options message sets the button and click type and changes nothing else |
| ClickEngine.PollPositionOnly | src/window.rs:277-279 | a position message sets the position and changes nothing else |
| ClickEngine.MoveActions | src/window.rs:282-287 | a round starts with one `send` (two trace entries) for a custom position and nothing otherwise; `CustomPositionRound` states which event |
| ClickEngine.ClickActions | src/window.rs:294-297 | n loop iterations append 4n trace entries; `ClickActionsShape` states their events and sleeps |
| ClickEngine.RoundActions | src/window.rs:281-299 | an emission round ends with the sleep of the configured delay; `RoundEvents` and `RunningCyclePacing` state its events and pacing |
| ClickEngine.CycleActions | src/window.rs:281-300 | every cycle ends with the 5 ms poll sleep, and an idle cycle is exactly that sleep; `IdleCycle`, `CustomPositionRound` and `CurrentCursorRound` state the events |
| ClickEngine.SentShape | src/window.rs:391-401 | `send`, modelled by `Sent`, makes exactly one dispatch attempt and sleeps 20 ms |
| ClickEngine.ClickActionsShape | src/window.rs:289-297 | n loop iterations dispatch 2n events that alternate press and release of the button, starting with a press, with 20 ms after each |
| ClickEngine.RoundEvents | src/window.rs:281-300 | a running cycle's events are the move's, then the click pairs'; its sleeps are theirs plus the delay plus 5 ms |
| ClickEngine.IdleCycle | src/window.rs:281-300 | a cycle that is not running dispatches nothing and sleeps exactly 5 ms |
| ClickEngine.CustomPositionRound | src/window.rs:281-297 | at a custom position, a running cycle first moves there, exactly once, then dispatches the press/release pairs |
| ClickEngine.CurrentCursorRound | src/window.rs:281-297 | at the current cursor position, a running cycle dispatches only the press/release pairs |
| ClickEngine.RunningCyclePacing | src/window.rs:281-300 | a running cycle sleeps 20 ms per event, then the configured delay, then 5 ms |
| ClickEngine.RunLocals | src/window.rs:253-279 | any number of cycles keep the delay whole milliseconds and the button a named one; `RunFollowsLastRead`, `RunPosition`, `RunOptions` and `RunDelay` state which values are in effect |
| ClickEngine.RunTrace | src/window.rs:253-301 | n cycles append at least n trace entries, one poll sleep each; `IdleRun` states the idle case |
| ClickEngine.RunInbox | src/window.rs:258-279 | after any number of cycles, every interval still queued converts without overflow |
| ClickEngine.RunStep | src/window.rs:253-301 | one more loop iteration is one more poll on the remaining queues, and it appends one cycle's actions |
| ClickEngine.RunFollowsLastRead | src/window.rs:253-256 | after any number of cycles, the run state is the value of the most recent successful lock, or the initial one |
| ClickEngine.RunPosition | src/window.rs:253-279 | after n cycles, the position in effect is the n-th one sent; once all queued positions are taken, it is the newest |
| ClickEngine.RunOptions | src/window.rs:253-275 | after n cycles, the button and click type in effect are those of the n-th options sent, or the initial ones |
| ClickEngine.RunDelay | src/window.rs:253-265 | after n cycles, the delay in effect is `LastDelay`, the conversion of the n-th interval sent or the initial delay; once all queued intervals are taken, it is the newest one's |
| ClickEngine.LastReadOfFlag | src/window.rs:253-256 | while nothing else writes the flag, the engine's run state becomes the flag's value once any lock succeeds, and stays as it was otherwise |
| ClickEngine.IdleRun | src/window.rs:253-301 | while every lock reads false, no event is dispatched and n cycles sleep exactly 5n ms |
| ClickEngine.Engine.constructor | src/window.rs:246-251 | the thread starts idle, with a zero delay, Left, Single, the current cursor position and empty channels |
| ClickEngine.Engine.Receive | src/window.rs:239-241 | the channels deliver what the surface sent, in order, without loss |
| ClickEngine.Engine.Send | src/window.rs:391-401 | one dispatch attempt and a 20 ms sleep are appended, whether or not the dispatch succeeded |
| ClickEngine.Engine.SleepMs | src/window.rs:298-300 | one sleep of the given length is appended |
| ClickEngine.Engine.TakeInterval | src/window.rs:258-265 | the oldest queued interval, if any, is removed and becomes the delay |
| ClickEngine.Engine.TakeOptions | src/window.rs:267-275 | the oldest queued options, if any, are removed and set the button and click type |
| ClickEngine.Engine.TakePosition | src/window.rs:277-279 | the oldest queued position, if any, is removed and becomes the position |
| ClickEngine.Engine.Poll | src/window.rs:254-279 | the locals and queues become those given by `PollLocals` and `PollInbox` |
| ClickEngine.Engine.MoveToPosition | src/window.rs:282-287 | a move to the custom position is sent, and nothing for the current cursor position |
| ClickEngine.Engine.ClickPairs | src/window.rs:289-297 | the loop appends exactly `ClickActions` for the click type's number of pairs |
| ClickEngine.Engine.EmissionRound | src/window.rs:281-299 | the round appends exactly `RoundActions` of the current locals |
| ClickEngine.Engine.Cycle | src/window.rs:253-300 | one iteration reads the shared flag through `TryRead`, so the run state becomes the flag's value when the lock succeeds and is kept otherwise; it polls as `PollLocals`/`PollInbox` and appends exactly `CycleActions` of the polled locals |
| ClickEngine.Engine.RunCycles | src/window.rs:253-301 | n iterations give the locals, queues and trace of `RunLocals`, `RunInbox` and `RunTrace` over the flag's reads; the run state ends as the flag's value if any lock succeeded |
| ClickEngine.StartThenCycle | src/gui.rs:220-224 | after the Start button, the engine's next cycle with the lock obtained is running and dispatches a full emission round |
| ClickEngine.StopThenCycle | src/gui.rs:227-231 | after the Stop button, the engine's next cycle with the lock obtained dispatches nothing and only sleeps 5 ms |

## Left out

- Window creation, the wgpu surface, rendering, layout, widget styling and the
  theme and redraw arms of the event loop are presentation only.
- Escape and window close end the event loop. This is process exit, not state
  the core keeps.
- The model has no real concurrency. The engine's cycles and the surface's
  reactions are separate method calls. Interleaving them corresponds to calling
  `Engine.Receive` between cycles.
- Engine.RunCycles: nothing writes the flag during the run. A write between
  cycles is modelled by calling `Engine.Cycle` one cycle at a time, with the
  writer's method (`Gui.MainApp.Start`, `Hotkeys.HandleKeyboardInput`, ...)
  called in between, as `StartThenCycle` does.
- Sleeps are recorded in the trace. They are not wall-clock time.
- `rdev::simulate` is abstract. Its outcome is a parameter, and its error
  message is not modelled.
- The `eprintln!` diagnostics are not modelled.
- Mouse-move coordinates are converted to `f64` in the source. The model keeps
  them as the integers the user entered, because that conversion is exact for
  every coordinate a screen has.
- Timing.ConvertTimeToDuration: an interval whose millisecond total overflows
  `usize` is excluded by a precondition. The model does not state the
  overflow's panic or wrap-around.
- Gui.MainApp.EditInterval: the `unwrap` on a channel send would panic only if
  the engine thread had ended. The engine never ends, so the send is modelled
  as always succeeding. The same holds for every other send.
- A channel whose sender is gone reads as empty, which is what `try_recv`
  reports as an error. That case cannot arise while the surface exists.
- The Start, Stop and Toggle buttons firing (`clicked()`) is the caller's
  choice of which method to call.
- `MainApp::update`'s other widgets have no effect on state. These are the
  labels and the disabled X/Y drag values shown while the position is not
  custom.
