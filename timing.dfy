/**
 * `convert_time_to_duration` of src/window.rs: the interval the control
 * surface displays as hours, minutes, seconds and milliseconds, turned into
 * the duration the engine sleeps between emission rounds.
 */
module Timing {
  import Gui

  const NANOS_PER_MILLI: nat := 1_000_000
  const NANOS_PER_SEC: nat := 1_000_000_000

  /** `std::time::Duration`: whole seconds and a sub-second part in nanoseconds. */
  datatype Duration = Duration(secs: nat, nanos: nat)

  /** A duration that is a whole number of milliseconds, with a normalised sub-second part. */
  predicate WholeMillis(d: Duration)
  {
    d.nanos % NANOS_PER_MILLI == 0 && d.nanos < NANOS_PER_SEC
  }

  function Millis(d: Duration): nat
  {
    d.secs * 1000 + d.nanos / NANOS_PER_MILLI
  }

  /** `Duration`'s ordering: by seconds, then by nanoseconds. */
  predicate DurationLe(a: Duration, b: Duration)
  {
    a.secs < b.secs || (a.secs == b.secs && a.nanos <= b.nanos)
  }

  /** The interval in milliseconds, as the source adds it up. */
  function TotalMillis(hours: nat, minutes: nat, seconds: nat, milliseconds: nat): nat
  {
    milliseconds + seconds * 1000 + minutes * 60 * 1000 + hours * 60 * 60 * 1000
  }

  /** The sum is unchecked `usize` arithmetic; the model is confined to sums that fit. */
  predicate Fits(ci: Gui.ClickInterval)
  {
    TotalMillis(ci.hours, ci.minutes, ci.seconds, ci.milliseconds) < Gui.USIZE_LIMIT
  }

  /** `convert_time_to_duration`: the same span of time, as seconds and nanoseconds. */
  function ConvertTimeToDuration(hours: Gui.Usize, minutes: Gui.Usize, seconds: Gui.Usize, milliseconds: Gui.Usize): (d: Duration)
    requires TotalMillis(hours, minutes, seconds, milliseconds) < Gui.USIZE_LIMIT
    ensures Millis(d) == TotalMillis(hours, minutes, seconds, milliseconds)
    ensures WholeMillis(d)
    ensures d.secs < Gui.USIZE_LIMIT
  {
    var total := TotalMillis(hours, minutes, seconds, milliseconds);
    Duration(total / 1000, (total % 1000) * NANOS_PER_MILLI)
  }

  function IntervalDuration(ci: Gui.ClickInterval): (d: Duration)
    requires Fits(ci)
  {
    ConvertTimeToDuration(ci.hours, ci.minutes, ci.seconds, ci.milliseconds)
  }

  lemma ConvertExamples()
    ensures ConvertTimeToDuration(1, 1, 1, 1) == Duration(3661, 1_000_000)
    ensures ConvertTimeToDuration(0, 0, 0, 500) == Duration(0, 500_000_000)
  {
  }

  /** Among whole-millisecond durations, the millisecond count decides the order. */
  lemma MillisOrder(a: Duration, b: Duration)
    requires WholeMillis(a) && WholeMillis(b)
    requires Millis(a) <= Millis(b)
    ensures DurationLe(a, b)
  {
    assert a.nanos == (a.nanos / NANOS_PER_MILLI) * NANOS_PER_MILLI;
    assert b.nanos == (b.nanos / NANOS_PER_MILLI) * NANOS_PER_MILLI;
  }

  /** Increasing any of the four arguments never shortens the duration. */
  lemma ConvertMonotone(h: Gui.Usize, m: Gui.Usize, s: Gui.Usize, ms: Gui.Usize,
                        h': Gui.Usize, m': Gui.Usize, s': Gui.Usize, ms': Gui.Usize)
    requires h <= h' && m <= m' && s <= s' && ms <= ms'
    requires TotalMillis(h', m', s', ms') < Gui.USIZE_LIMIT
    ensures TotalMillis(h, m, s, ms) <= TotalMillis(h', m', s', ms')
    ensures DurationLe(ConvertTimeToDuration(h, m, s, ms), ConvertTimeToDuration(h', m', s', ms'))
  {
    assert TotalMillis(h, m, s, ms) <= TotalMillis(h', m', s', ms');
    MillisOrder(ConvertTimeToDuration(h, m, s, ms), ConvertTimeToDuration(h', m', s', ms'));
  }
}
