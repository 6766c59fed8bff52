/**
 * The background click engine of src/window.rs: the thread spawned at
 * start-up that polls the shared run flag and the three configuration
 * channels and, while running, dispatches synthetic mouse events through
 * `send`.
 *
 * Dispatch attempts and sleeps are recorded, in order, in a trace of actions;
 * a sleep is a whole number of milliseconds.
 */
module ClickEngine {
  import opened Wrappers
  import Gui
  import opened Timing

  /** `send` waits this long after every dispatch attempt. */
  const SETTLE_MS: nat := 20
  /** The loop sleeps this long at the end of every cycle. */
  const POLL_MS: nat := 5

  /** `rdev::Button`. */
  datatype Button = Left | Right | Middle | Unknown(code: bv8)

  /** The part of `rdev::EventType` that the engine dispatches. */
  datatype EventType = MouseMove(x: nat, y: nat) | ButtonPress(button: Button) | ButtonRelease(button: Button)

  /** One entry of the engine's trace: a dispatch attempt or a sleep. */
  datatype Action = Emit(event: EventType) | Sleep(ms: nat)

  /** The button the engine presses for the configured one. */
  function ToRdevButton(b: Gui.MouseButton): (r: Button)
    ensures !r.Unknown?
  {
    match b
    case Left => Left
    case Middle => Middle
    case Right => Right
  }

  lemma ToRdevButtonInjective(a: Gui.MouseButton, b: Gui.MouseButton)
    ensures ToRdevButton(a) == ToRdevButton(b) <==> a == b
  {
  }

  /** Press/release pairs per emission round. */
  function ClickTimes(t: Gui.ClickType): (r: nat)
    ensures 1 <= r <= 2
  {
    match t
    case Single => 1
    case Double => 2
  }

  // ---------------------------------------------------------------------
  // The loop's state and its polling step
  // ---------------------------------------------------------------------

  /** The loop's five locals. */
  datatype Locals = Locals(isRunning: bool, delay: Duration, mouseButton: Button,
                           clickPosition: Gui.ClickPosition, clickType: Gui.ClickType)

  /** The locals as the thread declares them. */
  const InitialLocals: Locals := Locals(false, Duration(0, 0), Left, Gui.DefaultClickPosition, Gui.DefaultClickType)

  /** The delay is whole milliseconds and the button is one the control surface offers. */
  predicate LocalsValid(s: Locals)
  {
    WholeMillis(s.delay) && !s.mouseButton.Unknown?
  }

  /** What has been sent on each of the three channels and not yet received, oldest first. */
  datatype Inbox = Inbox(intervals: seq<Gui.ClickInterval>, options: seq<Gui.ClickOptions>,
                         positions: seq<Gui.ClickPosition>)

  /** Every queued interval converts without overflow. */
  predicate InboxFits(q: Inbox)
  {
    forall ci | ci in q.intervals :: Fits(ci)
  }

  /** What remains of a queue after one non-blocking receive. */
  function Rest<T>(q: seq<T>): (r: seq<T>)
    ensures forall x | x in r :: x in q
  {
    if q == [] then [] else q[1..]
  }

  function Min(a: nat, b: nat): nat
  {
    if a <= b then a else b
  }

  /** The locals after the polling half of a cycle: the run flag, then the head of each channel. */
  function PollLocals(s: Locals, q: Inbox, lock: Option<bool>): (r: Locals)
    requires InboxFits(q)
    ensures LocalsValid(s) ==> LocalsValid(r)
  {
    var delay := if q.intervals == [] then s.delay else IntervalDuration(q.intervals[0]);
    var button := if q.options == [] then s.mouseButton else ToRdevButton(q.options[0].mouseButton);
    var clickType := if q.options == [] then s.clickType else q.options[0].clickType;
    var position := if q.positions == [] then s.clickPosition else q.positions[0];
    Locals(if lock.Some? then lock.value else s.isRunning, delay, button, position, clickType)
  }

  /** The channels after the polling half of a cycle. */
  function PollInbox(q: Inbox): (r: Inbox)
    ensures InboxFits(q) ==> InboxFits(r)
  {
    Inbox(Rest(q.intervals), Rest(q.options), Rest(q.positions))
  }

  /** A receive takes the oldest message of a channel, if there is one, and nothing else. */
  lemma PollTakesOnlyHeads(q: Inbox)
    ensures q.intervals == [] ==> PollInbox(q).intervals == []
    ensures q.intervals != [] ==> [q.intervals[0]] + PollInbox(q).intervals == q.intervals
    ensures q.options == [] ==> PollInbox(q).options == []
    ensures q.options != [] ==> [q.options[0]] + PollInbox(q).options == q.options
    ensures q.positions == [] ==> PollInbox(q).positions == []
    ensures q.positions != [] ==> [q.positions[0]] + PollInbox(q).positions == q.positions
  {
  }

  /** With every channel empty and a failed lock, polling changes nothing. */
  lemma PollNothingPending(s: Locals)
    ensures PollLocals(s, Inbox([], [], []), None) == s
  {
  }

  /** A failed lock keeps the previous run state; it does not reset it to idle. */
  lemma PollPoisonedLock(s: Locals, q: Inbox)
    requires InboxFits(q)
    ensures PollLocals(s, q, None).isRunning == s.isRunning
  {
  }

  /** An interval message changes the delay and nothing else. */
  lemma PollIntervalOnly(s: Locals, q: Inbox)
    requires InboxFits(q)
    requires q.intervals != [] && q.options == [] && q.positions == []
    ensures PollLocals(s, q, None) == s.(delay := IntervalDuration(q.intervals[0]))
  {
  }

  /** An options message changes the button and the click type and nothing else. */
  lemma PollOptionsOnly(s: Locals, q: Inbox)
    requires InboxFits(q)
    requires q.intervals == [] && q.options != [] && q.positions == []
    ensures PollLocals(s, q, None)
      == s.(mouseButton := ToRdevButton(q.options[0].mouseButton), clickType := q.options[0].clickType)
  {
  }

  /** A position message changes the position and nothing else. */
  lemma PollPositionOnly(s: Locals, q: Inbox)
    requires InboxFits(q)
    requires q.intervals == [] && q.options == [] && q.positions != []
    ensures PollLocals(s, q, None) == s.(clickPosition := q.positions[0])
  {
  }

  // ---------------------------------------------------------------------
  // What a cycle dispatches and sleeps
  // ---------------------------------------------------------------------

  /** One call of `send`: the dispatch attempt, then the settle delay. */
  function Sent(e: EventType): seq<Action>
  {
    [Emit(e), Sleep(SETTLE_MS)]
  }

  /** The move that starts a round: one `send` for a custom position, nothing otherwise. */
  function MoveActions(p: Gui.ClickPosition): (r: seq<Action>)
    ensures |r| == if p.Custom? then 2 else 0
  {
    match p
    case CurrentCursorPosition => []
    case Custom(x, y) => Sent(MouseMove(x, y))
  }

  /** The first `n` iterations of the press/release loop. */
  function ClickActions(b: Button, n: nat): (r: seq<Action>)
    ensures |r| == 4 * n
  {
    if n == 0 then [] else ClickActions(b, n - 1) + Sent(ButtonPress(b)) + Sent(ButtonRelease(b))
  }

  /** An emission round: the move, the click pairs, then the configured interval. */
  function RoundActions(s: Locals): (r: seq<Action>)
    ensures |r| > 0 && r[|r| - 1] == Sleep(Millis(s.delay))
  {
    MoveActions(s.clickPosition) + ClickActions(s.mouseButton, ClickTimes(s.clickType)) + [Sleep(Millis(s.delay))]
  }

  /** What one cycle appends to the trace, given the locals after polling. */
  function CycleActions(s: Locals): (r: seq<Action>)
    ensures |r| > 0 && r[|r| - 1] == Sleep(POLL_MS)
    ensures !s.isRunning ==> r == [Sleep(POLL_MS)]
  {
    (if s.isRunning then RoundActions(s) else []) + [Sleep(POLL_MS)]
  }

  /** The synthetic events of a trace, in order. */
  function EventsOf(tr: seq<Action>): seq<EventType>
  {
    if tr == [] then [] else (if tr[0].Emit? then [tr[0].event] else []) + EventsOf(tr[1..])
  }

  /** The time a trace spends asleep, in milliseconds. */
  function TotalSleep(tr: seq<Action>): nat
  {
    if tr == [] then 0 else (if tr[0].Sleep? then tr[0].ms else 0) + TotalSleep(tr[1..])
  }

  lemma {:induction false} EventsOfAppend(a: seq<Action>, b: seq<Action>)
    ensures EventsOf(a + b) == EventsOf(a) + EventsOf(b)
  {
    if a == [] {
      assert a + b == b;
    } else {
      assert (a + b)[1..] == a[1..] + b;
      assert EventsOf(a + b) == (if a[0].Emit? then [a[0].event] else []) + EventsOf((a + b)[1..]);
      EventsOfAppend(a[1..], b);
    }
  }

  lemma {:induction false} TotalSleepAppend(a: seq<Action>, b: seq<Action>)
    ensures TotalSleep(a + b) == TotalSleep(a) + TotalSleep(b)
  {
    if a == [] {
      assert a + b == b;
    } else {
      assert (a + b)[1..] == a[1..] + b;
      assert TotalSleep(a + b) == (if a[0].Sleep? then a[0].ms else 0) + TotalSleep((a + b)[1..]);
      TotalSleepAppend(a[1..], b);
    }
  }

  lemma SleepShape(ms: nat)
    ensures EventsOf([Sleep(ms)]) == []
    ensures TotalSleep([Sleep(ms)]) == ms
  {
    assert [Sleep(ms)][1..] == [];
  }

  /** A `send` dispatches its one event and then sleeps the settle delay. */
  lemma SentShape(e: EventType)
    ensures EventsOf(Sent(e)) == [e]
    ensures TotalSleep(Sent(e)) == SETTLE_MS
  {
    assert Sent(e)[1..] == [Sleep(SETTLE_MS)];
    SleepShape(SETTLE_MS);
  }

  /**
   * The loop dispatches exactly `n` presses of `b`, each immediately followed
   * by its release, and settles after each event.
   */
  lemma {:induction false} ClickActionsShape(b: Button, n: nat)
    ensures |EventsOf(ClickActions(b, n))| == 2 * n
    ensures forall i | 0 <= i < 2 * n ::
      EventsOf(ClickActions(b, n))[i] == if i % 2 == 0 then ButtonPress(b) else ButtonRelease(b)
    ensures TotalSleep(ClickActions(b, n)) == SETTLE_MS * (2 * n)
  {
    if n > 0 {
      var prev := ClickActions(b, n - 1);
      var pair := Sent(ButtonPress(b)) + Sent(ButtonRelease(b));
      ClickActionsShape(b, n - 1);
      assert ClickActions(b, n) == prev + pair;
      EventsOfAppend(prev, pair);
      TotalSleepAppend(prev, pair);
      SentShape(ButtonPress(b));
      SentShape(ButtonRelease(b));
      EventsOfAppend(Sent(ButtonPress(b)), Sent(ButtonRelease(b)));
      TotalSleepAppend(Sent(ButtonPress(b)), Sent(ButtonRelease(b)));
    }
  }

  /** The events of a running cycle: the move, if any, then the click pairs. */
  lemma RoundEvents(s: Locals)
    requires s.isRunning
    ensures EventsOf(CycleActions(s))
      == EventsOf(MoveActions(s.clickPosition)) + EventsOf(ClickActions(s.mouseButton, ClickTimes(s.clickType)))
    ensures TotalSleep(CycleActions(s))
      == TotalSleep(MoveActions(s.clickPosition)) + TotalSleep(ClickActions(s.mouseButton, ClickTimes(s.clickType)))
         + Millis(s.delay) + POLL_MS
  {
    var mv, cl := MoveActions(s.clickPosition), ClickActions(s.mouseButton, ClickTimes(s.clickType));
    var tail := [Sleep(Millis(s.delay))] + [Sleep(POLL_MS)];
    assert CycleActions(s) == mv + (cl + tail);
    EventsOfAppend(mv, cl + tail);
    EventsOfAppend(cl, tail);
    TotalSleepAppend(mv, cl + tail);
    TotalSleepAppend(cl, tail);
    SleepShape(Millis(s.delay));
    SleepShape(POLL_MS);
    EventsOfAppend([Sleep(Millis(s.delay))], [Sleep(POLL_MS)]);
    TotalSleepAppend([Sleep(Millis(s.delay))], [Sleep(POLL_MS)]);
  }

  /** A cycle that is not running dispatches nothing; it only sleeps the poll interval. */
  lemma IdleCycle(s: Locals)
    requires !s.isRunning
    ensures EventsOf(CycleActions(s)) == []
    ensures TotalSleep(CycleActions(s)) == POLL_MS
  {
    SleepShape(POLL_MS);
  }

  /**
   * A running cycle at a custom position moves there exactly once, before any
   * button event, then clicks the configured number of pairs.
   */
  lemma CustomPositionRound(s: Locals)
    requires s.isRunning && s.clickPosition.Custom?
    ensures |EventsOf(CycleActions(s))| == 1 + 2 * ClickTimes(s.clickType)
    ensures EventsOf(CycleActions(s))[0] == MouseMove(s.clickPosition.x, s.clickPosition.y)
    ensures forall i | 1 <= i < 1 + 2 * ClickTimes(s.clickType) ::
      EventsOf(CycleActions(s))[i] == if i % 2 == 1 then ButtonPress(s.mouseButton) else ButtonRelease(s.mouseButton)
  {
    RoundEvents(s);
    ClickActionsShape(s.mouseButton, ClickTimes(s.clickType));
    SentShape(MouseMove(s.clickPosition.x, s.clickPosition.y));
  }

  /** A running cycle at the current cursor position dispatches no move, only the click pairs. */
  lemma CurrentCursorRound(s: Locals)
    requires s.isRunning && s.clickPosition == Gui.CurrentCursorPosition
    ensures |EventsOf(CycleActions(s))| == 2 * ClickTimes(s.clickType)
    ensures forall i | 0 <= i < 2 * ClickTimes(s.clickType) ::
      EventsOf(CycleActions(s))[i] == if i % 2 == 0 then ButtonPress(s.mouseButton) else ButtonRelease(s.mouseButton)
  {
    RoundEvents(s);
    ClickActionsShape(s.mouseButton, ClickTimes(s.clickType));
  }

  /**
   * Pacing of a running cycle: the settle delay after every event, then the
   * configured interval, then the poll interval.
   */
  lemma RunningCyclePacing(s: Locals)
    requires s.isRunning
    ensures TotalSleep(CycleActions(s)) == SETTLE_MS * |EventsOf(CycleActions(s))| + Millis(s.delay) + POLL_MS
  {
    RoundEvents(s);
    ClickActionsShape(s.mouseButton, ClickTimes(s.clickType));
    if s.clickPosition.Custom? {
      SentShape(MouseMove(s.clickPosition.x, s.clickPosition.y));
    }
  }

  lemma AppendAssoc(a: seq<Action>, b: seq<Action>, c: seq<Action>)
    ensures a + b + c == a + (b + c)
  {
  }

  // ---------------------------------------------------------------------
  // Several cycles
  // ---------------------------------------------------------------------

  /** A queue after `n` cycles: each took at most one message. */
  function Drained<T>(q: seq<T>, n: nat): (r: seq<T>)
    ensures |r| == |q| - Min(n, |q|)
    ensures forall x | x in r :: x in q
  {
    q[Min(n, |q|)..]
  }

  /** The channels after `n` cycles. */
  function RunInbox(q: Inbox, n: nat): (r: Inbox)
    ensures InboxFits(q) ==> InboxFits(r)
  {
    Inbox(Drained(q.intervals, n), Drained(q.options, n), Drained(q.positions, n))
  }

  /** The locals after one cycle per entry of `locks`, each the outcome of that cycle's lock attempt. */
  function RunLocals(s: Locals, q: Inbox, locks: seq<Option<bool>>): (r: Locals)
    requires InboxFits(q)
    ensures LocalsValid(s) ==> LocalsValid(r)
    decreases |locks|
  {
    if locks == [] then s
    else
      var k := |locks| - 1;
      PollLocals(RunLocals(s, q, locks[..k]), RunInbox(q, k), locks[k])
  }

  /** What those cycles append to the trace. */
  function RunTrace(s: Locals, q: Inbox, locks: seq<Option<bool>>): (r: seq<Action>)
    requires InboxFits(q)
    ensures |r| >= |locks|
    decreases |locks|
  {
    if locks == [] then [] else RunTrace(s, q, locks[..|locks| - 1]) + CycleActions(RunLocals(s, q, locks))
  }

  /** The most recent successful read of the run flag, or `dflt` if there was none. */
  function LastRead(locks: seq<Option<bool>>, dflt: bool): bool
    decreases |locks|
  {
    if locks == [] then dflt
    else if locks[|locks| - 1].Some? then locks[|locks| - 1].value
    else LastRead(locks[..|locks| - 1], dflt)
  }

  /** The outcomes of lock attempts on a flag holding `value`: `None` where the mutex was poisoned. */
  function FlagReads(value: bool, lockOks: seq<bool>): (r: seq<Option<bool>>)
    ensures |r| == |lockOks|
    ensures forall k | 0 <= k < |r| :: r[k] == if lockOks[k] then Some(value) else None
  {
    seq(|lockOks|, k requires 0 <= k < |lockOks| => if lockOks[k] then Some(value) else None)
  }

  /** Reading an unchanging flag: its value once any lock succeeded, the previous state otherwise. */
  lemma {:induction false} LastReadOfFlag(value: bool, lockOks: seq<bool>, dflt: bool)
    ensures LastRead(FlagReads(value, lockOks), dflt) == if true in lockOks then value else dflt
    decreases |lockOks|
  {
    if lockOks != [] {
      var k := |lockOks| - 1;
      assert FlagReads(value, lockOks)[..k] == FlagReads(value, lockOks[..k]);
      assert lockOks == lockOks[..k] + [lockOks[k]];
      LastReadOfFlag(value, lockOks[..k], dflt);
    }
  }

  /** The message the `n`-th cycle's receive leaves in effect: the last one taken, or `dflt`. */
  function LastTaken<T>(q: seq<T>, n: nat, dflt: T): T
  {
    if Min(n, |q|) == 0 then dflt else q[Min(n, |q|) - 1]
  }

  lemma DrainStep<T>(q: seq<T>, n: nat, dflt: T)
    ensures Drained(q, n + 1) == Rest(Drained(q, n))
    ensures LastTaken(q, n + 1, dflt) == if Drained(q, n) == [] then LastTaken(q, n, dflt) else Drained(q, n)[0]
  {
  }

  /** One more cycle, as the loop runs it. */
  lemma RunStep(s: Locals, q: Inbox, locks: seq<Option<bool>>, n: nat)
    requires InboxFits(q) && n < |locks|
    ensures RunLocals(s, q, locks[..n + 1]) == PollLocals(RunLocals(s, q, locks[..n]), RunInbox(q, n), locks[n])
    ensures RunInbox(q, n + 1) == PollInbox(RunInbox(q, n))
    ensures RunTrace(s, q, locks[..n + 1]) == RunTrace(s, q, locks[..n]) + CycleActions(RunLocals(s, q, locks[..n + 1]))
  {
    assert locks[..n + 1][..n] == locks[..n];
    DrainStep(q.intervals, n, Gui.DefaultClickInterval);
    DrainStep(q.options, n, Gui.DefaultClickOptions);
    DrainStep(q.positions, n, Gui.DefaultClickPosition);
  }

  /** The run state follows the most recent successful lock; failed ones leave it as it was. */
  lemma {:induction false} RunFollowsLastRead(s: Locals, q: Inbox, locks: seq<Option<bool>>)
    requires InboxFits(q)
    ensures RunLocals(s, q, locks).isRunning == LastRead(locks, s.isRunning)
    decreases |locks|
  {
    if locks != [] {
      RunFollowsLastRead(s, q, locks[..|locks| - 1]);
    }
  }

  /**
   * After `n` cycles the position in effect is the `n`-th one sent (each
   * cycle takes one); once every queued position has been taken, it is the
   * most recent one.
   */
  lemma {:induction false} RunPosition(s: Locals, q: Inbox, locks: seq<Option<bool>>)
    requires InboxFits(q)
    ensures RunLocals(s, q, locks).clickPosition == LastTaken(q.positions, |locks|, s.clickPosition)
    ensures 0 < |q.positions| <= |locks| ==> RunLocals(s, q, locks).clickPosition == q.positions[|q.positions| - 1]
    decreases |locks|
  {
    if locks != [] {
      var k := |locks| - 1;
      RunPosition(s, q, locks[..k]);
      DrainStep(q.positions, k, s.clickPosition);
    }
  }

  /** As `RunPosition`, for the button and click type carried by the options channel. */
  lemma {:induction false} RunOptions(s: Locals, q: Inbox, locks: seq<Option<bool>>)
    requires InboxFits(q)
    ensures Min(|locks|, |q.options|) == 0 ==>
      RunLocals(s, q, locks).mouseButton == s.mouseButton && RunLocals(s, q, locks).clickType == s.clickType
    ensures Min(|locks|, |q.options|) > 0 ==>
      var last := q.options[Min(|locks|, |q.options|) - 1];
      RunLocals(s, q, locks).mouseButton == ToRdevButton(last.mouseButton)
      && RunLocals(s, q, locks).clickType == last.clickType
    decreases |locks|
  {
    if locks != [] {
      var k := |locks| - 1;
      RunOptions(s, q, locks[..k]);
      DrainStep(q.options, k, Gui.DefaultClickOptions);
    }
  }

  /** The delay the `n`-th cycle's receive leaves in effect: the conversion of the last interval taken, or `dflt`. */
  function LastDelay(q: seq<Gui.ClickInterval>, n: nat, dflt: Duration): Duration
    requires forall ci | ci in q :: Fits(ci)
  {
    var m := Min(n, |q|);
    if m == 0 then dflt else assert q[m - 1] in q; IntervalDuration(q[m - 1])
  }

  /** As `RunPosition`, for the delay carried by the interval channel. */
  lemma {:induction false} RunDelay(s: Locals, q: Inbox, locks: seq<Option<bool>>)
    requires InboxFits(q)
    ensures RunLocals(s, q, locks).delay == LastDelay(q.intervals, |locks|, s.delay)
    ensures 0 < |q.intervals| <= |locks| ==>
      RunLocals(s, q, locks).delay == IntervalDuration(q.intervals[|q.intervals| - 1])
    decreases |locks|
  {
    if locks != [] {
      var k := |locks| - 1;
      RunDelay(s, q, locks[..k]);
      DrainStep(q.intervals, k, Gui.DefaultClickInterval);
    }
  }

  /** While every lock reads false, nothing is dispatched and each cycle sleeps only the poll interval. */
  lemma {:induction false} IdleRun(s: Locals, q: Inbox, locks: seq<Option<bool>>)
    requires InboxFits(q)
    requires forall k | 0 <= k < |locks| :: locks[k] == Some(false)
    ensures EventsOf(RunTrace(s, q, locks)) == []
    ensures TotalSleep(RunTrace(s, q, locks)) == POLL_MS * |locks|
    decreases |locks|
  {
    if locks != [] {
      var init := locks[..|locks| - 1];
      IdleRun(s, q, init);
      var last := RunLocals(s, q, locks);
      assert !last.isRunning;
      IdleCycle(last);
      EventsOfAppend(RunTrace(s, q, init), CycleActions(last));
      TotalSleepAppend(RunTrace(s, q, init), CycleActions(last));
    }
  }

  // ---------------------------------------------------------------------
  // The engine thread
  // ---------------------------------------------------------------------

  /**
   * The spawned thread: the loop's five locals, the receiving ends of the
   * three channels, and the trace of everything dispatched or slept so far.
   */
  class Engine {
    var isRunning: bool
    var delay: Duration
    var mouseButton: Button
    var clickPosition: Gui.ClickPosition
    var clickType: Gui.ClickType
    var intervalQueue: seq<Gui.ClickInterval>
    var optionsQueue: seq<Gui.ClickOptions>
    var positionQueue: seq<Gui.ClickPosition>
    var trace: seq<Action>

    function Snapshot(): Locals
      reads this`isRunning, this`delay, this`mouseButton, this`clickPosition, this`clickType
    {
      Locals(isRunning, delay, mouseButton, clickPosition, clickType)
    }

    function Pending(): Inbox
      reads this`intervalQueue, this`optionsQueue, this`positionQueue
    {
      Inbox(intervalQueue, optionsQueue, positionQueue)
    }

    ghost predicate Valid()
      reads this
    {
      LocalsValid(Snapshot()) && InboxFits(Pending())
    }

    /** The thread's start: the declared locals and freshly created, empty channels. */
    constructor ()
      ensures Valid()
      ensures Snapshot() == InitialLocals
      ensures Pending() == Inbox([], [], [])
      ensures trace == []
    {
      isRunning := false;
      delay := Duration(0, 0);
      mouseButton := Left;
      clickPosition := Gui.DefaultClickPosition;
      clickType := Gui.DefaultClickType;
      intervalQueue, optionsQueue, positionQueue := [], [], [];
      trace := [];
    }

    /**
     * The channels deliver, in order, what the control surface has sent:
     * everything in its outboxes joins the engine's queues.
     */
    method Receive(app: Gui.MainApp)
      requires Valid()
      requires forall ci | ci in app.intervalOutbox :: Fits(ci)
      modifies this`intervalQueue, this`optionsQueue, this`positionQueue
      modifies app`intervalOutbox, app`optionsOutbox, app`positionOutbox
      ensures Valid()
      ensures Pending() == Inbox(old(intervalQueue) + old(app.intervalOutbox), old(optionsQueue) + old(app.optionsOutbox),
                                 old(positionQueue) + old(app.positionOutbox))
      ensures app.intervalOutbox == [] && app.optionsOutbox == [] && app.positionOutbox == []
    {
      intervalQueue := intervalQueue + app.intervalOutbox;
      optionsQueue := optionsQueue + app.optionsOutbox;
      positionQueue := positionQueue + app.positionOutbox;
      app.intervalOutbox, app.optionsOutbox, app.positionOutbox := [], [], [];
    }

    /**
     * `send`: one dispatch attempt, then the settle delay. `delivered` is the
     * outcome of `rdev::simulate`; a failure is only reported, so the trace
     * is the same either way.
     */
    method Send(e: EventType, delivered: bool)
      modifies this`trace
      ensures trace == old(trace) + Sent(e)
    {
      trace := trace + [Emit(e)];
      trace := trace + [Sleep(SETTLE_MS)];
    }

    method SleepMs(ms: nat)
      modifies this`trace
      ensures trace == old(trace) + [Sleep(ms)]
    {
      trace := trace + [Sleep(ms)];
    }

    /** A non-blocking receive on the interval channel. */
    method TakeInterval()
      requires Valid()
      modifies this`intervalQueue, this`delay
      ensures Valid()
      ensures intervalQueue == Rest(old(intervalQueue))
      ensures delay == if old(intervalQueue) == [] then old(delay) else IntervalDuration(old(intervalQueue)[0])
    {
      if intervalQueue != [] {
        var ci := intervalQueue[0];
        assert ci in intervalQueue;
        intervalQueue := intervalQueue[1..];
        delay := ConvertTimeToDuration(ci.hours, ci.minutes, ci.seconds, ci.milliseconds);
      }
    }

    /** A non-blocking receive on the options channel. */
    method TakeOptions()
      requires Valid()
      modifies this`optionsQueue, this`mouseButton, this`clickType
      ensures Valid()
      ensures optionsQueue == Rest(old(optionsQueue))
      ensures mouseButton == if old(optionsQueue) == [] then old(mouseButton)
                             else ToRdevButton(old(optionsQueue)[0].mouseButton)
      ensures clickType == if old(optionsQueue) == [] then old(clickType) else old(optionsQueue)[0].clickType
    {
      if optionsQueue != [] {
        var co := optionsQueue[0];
        optionsQueue := optionsQueue[1..];
        mouseButton := ToRdevButton(co.mouseButton);
        clickType := co.clickType;
      }
    }

    /** A non-blocking receive on the position channel. */
    method TakePosition()
      modifies this`positionQueue, this`clickPosition
      ensures positionQueue == Rest(old(positionQueue))
      ensures clickPosition == if old(positionQueue) == [] then old(clickPosition) else old(positionQueue)[0]
    {
      if positionQueue != [] {
        clickPosition := positionQueue[0];
        positionQueue := positionQueue[1..];
      }
    }

    /**
     * The polling half of a cycle: the run flag (`lock` is `None` when the
     * mutex is poisoned), then at most one message from each channel.
     */
    method Poll(lock: Option<bool>)
      requires Valid()
      modifies this`isRunning, this`intervalQueue, this`delay, this`optionsQueue, this`mouseButton
      modifies this`clickType, this`positionQueue, this`clickPosition
      ensures Valid()
      ensures Snapshot() == PollLocals(old(Snapshot()), old(Pending()), lock)
      ensures Pending() == PollInbox(old(Pending()))
    {
      if lock.Some? {
        isRunning := lock.value;
      }
      TakeInterval();
      TakeOptions();
      TakePosition();
    }

    /** The move that starts a round at a custom position. */
    method MoveToPosition(os: nat -> bool)
      modifies this`trace
      ensures trace == old(trace) + MoveActions(clickPosition)
    {
      if clickPosition.Custom? {
        Send(MouseMove(clickPosition.x, clickPosition.y), os(|trace|));
      }
    }

    /** The press/release loop of a round. */
    method ClickPairs(os: nat -> bool)
      modifies this`trace
      ensures trace == old(trace) + ClickActions(mouseButton, ClickTimes(clickType))
    {
      var clickTimes := ClickTimes(clickType);
      for i := 0 to clickTimes
        invariant trace == old(trace) + ClickActions(mouseButton, i)
      {
        ghost var mid := trace;
        Send(ButtonPress(mouseButton), os(|trace|));
        Send(ButtonRelease(mouseButton), os(|trace|));
        assert trace == mid + Sent(ButtonPress(mouseButton)) + Sent(ButtonRelease(mouseButton));
      }
    }

    /**
     * The body of `if is_running`: the move for a custom position, the
     * press/release loop, and the configured interval.
     */
    method EmissionRound(os: nat -> bool)
      modifies this`trace
      ensures trace == old(trace) + RoundActions(Snapshot())
    {
      MoveToPosition(os);
      ClickPairs(os);
      SleepMs(Millis(delay));
    }

    /**
     * One iteration of the loop. The run flag is read through `flag`, whose
     * lock succeeds when `lockOk` and is poisoned otherwise; `os(k)` is the
     * outcome of the dispatch attempt recorded at position `k` of the trace.
     */
    method Cycle(flag: Gui.RunFlag, lockOk: bool, os: nat -> bool)
      requires Valid()
      modifies this
      ensures Valid()
      ensures Snapshot() == PollLocals(old(Snapshot()), old(Pending()), flag.TryRead(lockOk))
      ensures isRunning == if lockOk then flag.value else old(isRunning)
      ensures Pending() == PollInbox(old(Pending()))
      ensures trace == old(trace) + CycleActions(Snapshot())
    {
      Poll(flag.TryRead(lockOk));
      ghost var t0 := trace;
      if isRunning {
        EmissionRound(os);
      }
      SleepMs(POLL_MS);
      AppendAssoc(t0, if isRunning then RoundActions(Snapshot()) else [], [Sleep(POLL_MS)]);
    }

    /**
     * `|lockOks|` iterations of the loop while nothing else writes the flag,
     * the `k`-th lock attempt succeeding exactly when `lockOks[k]`.
     */
    method RunCycles(flag: Gui.RunFlag, lockOks: seq<bool>, os: nat -> bool)
      requires Valid()
      modifies this
      ensures Valid()
      ensures Snapshot() == RunLocals(old(Snapshot()), old(Pending()), FlagReads(flag.value, lockOks))
      ensures Pending() == RunInbox(old(Pending()), |lockOks|)
      ensures trace == old(trace) + RunTrace(old(Snapshot()), old(Pending()), FlagReads(flag.value, lockOks))
      ensures isRunning == if true in lockOks then flag.value else old(isRunning)
    {
      ghost var s0, q0, tr0 := Snapshot(), Pending(), trace;
      ghost var locks := FlagReads(flag.value, lockOks);
      var n := 0;
      while n < |lockOks|
        invariant 0 <= n <= |lockOks|
        invariant Valid() && InboxFits(q0)
        invariant Snapshot() == RunLocals(s0, q0, locks[..n])
        invariant Pending() == RunInbox(q0, n)
        invariant trace == tr0 + RunTrace(s0, q0, locks[..n])
      {
        Cycle(flag, lockOks[n], os);
        assert flag.TryRead(lockOks[n]) == locks[n];
        RunStep(s0, q0, locks, n);
        AppendAssoc(tr0, RunTrace(s0, q0, locks[..n]), CycleActions(Snapshot()));
        n := n + 1;
      }
      assert locks[..n] == locks;
      RunFollowsLastRead(s0, q0, locks);
      LastReadOfFlag(flag.value, lockOks, s0.isRunning);
    }
  }

  /**
   * The Start button, then one engine cycle with the lock obtained: the cycle
   * runs, so it dispatches a full emission round.
   */
  method StartThenCycle(app: Gui.MainApp, engine: Engine, os: nat -> bool)
    requires engine.Valid()
    modifies app.isRunning, engine
    ensures engine.Valid() && engine.isRunning
    ensures engine.trace == old(engine.trace) + RoundActions(engine.Snapshot()) + [Sleep(POLL_MS)]
  {
    app.Start(true);
    engine.Cycle(app.isRunning, true, os);
  }

  /**
   * The Stop button, then one engine cycle with the lock obtained: the cycle
   * dispatches nothing and only sleeps the poll interval.
   */
  method StopThenCycle(app: Gui.MainApp, engine: Engine, os: nat -> bool)
    requires engine.Valid()
    modifies app.isRunning, engine
    ensures engine.Valid() && !engine.isRunning
    ensures engine.trace == old(engine.trace) + [Sleep(POLL_MS)]
  {
    app.Stop(true);
    engine.Cycle(app.isRunning, true, os);
  }
}
