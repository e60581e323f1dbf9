/** The decision logic of the user-space helper's keyboard event handler: read
    one `struct input_event`, keep only the backlight hotkey, remember it as the
    previous key event, debounce against the previous key event's timestamp and
    step the keyboard brightness by one, wrapping at the maximum. The brightness
    service is reached through two calls whose outcomes are inputs here. */
module SamsungBookSupport {
  import opened Wrappers

  type int32 = x: int | -0x8000_0000 <= x < 0x8000_0000

  const INT32_MAX: int := 0x7fff_ffff
  const EV_MSC: int := 0x04
  const HOTKEY_SCANCODE: int := 0xac
  /** sizeof(struct input_event) on a 64-bit target. */
  const INPUT_EVENT_SIZE: nat := 24
  const USEC_PER_SEC: int := 1_000_000
  const DEBOUNCE_USEC: int := 300_000

  datatype TimeVal = TimeVal(sec: int, usec: int)

  datatype InputEvent = InputEvent(time: TimeVal, evType: int, code: int, value: int)

  /** One read from the keyboard channel: how many bytes arrived and the event
      they spell when all of them did. */
  datatype ChannelRead = ChannelRead(bytesRead: nat, ev: InputEvent)

  datatype DbusCall = GetBrightness | SetBrightness(level: int32)

  /** What one run of the handler leaves behind: the new previous event and the
      brightness-service calls it made, in order. */
  datatype Outcome = Outcome(pv: InputEvent, calls: seq<DbusCall>)

  /** The previous event the handler starts from: every field zero. */
  const ZERO_EVENT := InputEvent(TimeVal(0, 0), 0, 0, 0)

  predicate Normalised(t: TimeVal) {
    0 <= t.usec < USEC_PER_SEC
  }

  function Micros(t: TimeVal): int {
    t.sec * USEC_PER_SEC + t.usec
  }

  /** `timersub(a, b, d)`: for normalised operands the difference is
      normalised and is exactly the gap between them. */
  function TimerSub(a: TimeVal, b: TimeVal): (d: TimeVal)
    ensures Normalised(a) && Normalised(b) ==> Normalised(d) && Micros(d) == Micros(a) - Micros(b)
  {
    var sec := a.sec - b.sec;
    var usec := a.usec - b.usec;
    if usec < 0 then TimeVal(sec - 1, usec + USEC_PER_SEC) else TimeVal(sec, usec)
  }

  /** The debounce test: a non-negative seconds part with at least 300000
      microseconds, or a positive seconds part. On a normalised difference it
      holds exactly when the gap is at least 300 ms. */
  function Debounce(td: TimeVal): (pass: bool)
    ensures Normalised(td) ==> (pass <==> Micros(td) >= DEBOUNCE_USEC)
  {
    (td.sec >= 0 && td.usec >= DEBOUNCE_USEC) || td.sec > 0
  }

  /** A full-sized read of the backlight hotkey's scan code. */
  predicate IsHotkey(read: ChannelRead) {
    read.bytesRead == INPUT_EVENT_SIZE && read.ev.evType == EV_MSC && read.ev.value == HOTKEY_SCANCODE
  }

  /** The previous-event record after one read: replaced by every hotkey event,
      whether or not it passes the debounce. */
  function PvAfter(pv: InputEvent, read: ChannelRead): InputEvent {
    if IsHotkey(read) then read.ev else pv
  }

  /** A hotkey event at least 300 ms (per the C test) after the previous one. */
  predicate Accepted(pv: InputEvent, read: ChannelRead) {
    IsHotkey(read) && Debounce(TimerSub(read.ev.time, pv.time))
  }

  function Abs(n: int): int {
    if n < 0 then -n else n
  }

  lemma ModBelow(x: int, n: int)
    requires 0 <= x && 0 < n
    ensures x < n ==> x % n == x
  {
  }

  lemma ModSelf(n: int)
    requires 0 < n
    ensures n % n == 0
  {
  }

  /** Dividing the magnitudes: |a| is a multiple of m plus the Euclidean
      remainder, so `a` is a signed multiple of m plus the signed remainder. */
  lemma TruncatedDivision(a: int, m: int)
    requires 0 < m
    ensures 0 <= a ==> a == (a / m) * m + a % m
    ensures a < 0 ==> a == (-((-a) / m)) * m + -((-a) % m)
  {
  }

  /** C's `%`: truncates toward zero, so the result takes the dividend's sign
      and is smaller in magnitude than the divisor, and the dividend is a
      multiple of the divisor plus the result. */
  function CRem(a: int, n: int): (r: int)
    requires n != 0
    ensures exists q: int :: a == q * n + r
    ensures 0 <= a ==> 0 <= r < Abs(n)
    ensures a < 0 ==> -Abs(n) < r <= 0
    ensures 0 <= a < Abs(n) ==> r == a
    ensures Abs(a) == Abs(n) ==> r == 0
  {
    ModBelow(Abs(a), Abs(n));
    ModSelf(Abs(n));
    TruncatedDivision(a, Abs(n));
    var m := Abs(n);
    var r := if 0 <= a then a % m else -((-a) % m);
    var q := if 0 <= a then a / m else -((-a) / m);
    assert a == (if 0 < n then q else -q) * n + r;
    r
  }

  /** `(b + 1) % (max + 1)` is defined in C: no overflow and no division by zero. */
  predicate NextDefined(b: int32, max: int32) {
    b < INT32_MAX && max != -1 && max < INT32_MAX
  }

  /** The next keyboard brightness: one step up, wrapping the maximum to 0, and
      staying within [0, max] whenever the current level does. */
  function NextBrightness(b: int32, max: int32): (r: int32)
    requires NextDefined(b, max)
    ensures 0 <= b < max ==> r == b + 1
    ensures b == max ==> r == 0
    ensures 0 <= b <= max ==> 0 <= r <= max
  {
    CRem(b + 1, max + 1)
  }

  /** The handler's decision. A short or empty read and an event that is not
      the hotkey change nothing and call nothing. A hotkey event always becomes
      the previous event; the brightness is read only when the event passes the
      debounce, and set, to the next level, only when that read succeeded
      (`current` is the read's answer). */
  function HandleEventSpec(pv: InputEvent, max: int32, read: ChannelRead, current: Option<int32>): (o: Outcome)
    requires Accepted(pv, read) && current.Some? ==> NextDefined(current.value, max)
    ensures o.pv == PvAfter(pv, read)
    ensures o.calls == [] <==> !Accepted(pv, read)
    ensures IsHotkey(read) && Normalised(read.ev.time) && Normalised(pv.time) ==>
      (o.calls != [] <==> Micros(read.ev.time) - Micros(pv.time) >= DEBOUNCE_USEC)
    ensures Accepted(pv, read) ==> o.calls[0] == GetBrightness
    ensures Accepted(pv, read) && current.None? ==> o.calls == [GetBrightness]
    ensures (exists level :: SetBrightness(level) in o.calls) <==> Accepted(pv, read) && current.Some?
    ensures Accepted(pv, read) && current.Some? ==>
      o.calls == [GetBrightness, SetBrightness(NextBrightness(current.value, max))]
  {
    if !Accepted(pv, read) then
      Outcome(PvAfter(pv, read), [])
    else if current.None? then
      Outcome(read.ev, [GetBrightness])
    else
      Outcome(read.ev, [GetBrightness, SetBrightness(NextBrightness(current.value, max))])
  }

  /** The helper's handler state: the static previous event and the global
      maximum brightness. */
  class KeyHandler {
    var pv: InputEvent
    var brightnessMax: int32

    constructor ()
      ensures pv == ZERO_EVENT && brightnessMax == 0
    {
      pv := ZERO_EVENT;
      brightnessMax := 0;
    }

    /** The proxy callback's `GetMaxBrightness`: the global is assigned only
        when the call answered. */
    method MaxBrightnessReady(reply: Option<int32>)
      modifies this`brightnessMax
      ensures brightnessMax == if reply.Some? then reply.value else old(brightnessMax)
    {
      if reply.Some? {
        brightnessMax := reply.value;
      }
    }

    /** `libevdev_event_handler`; it always returns TRUE, keeping the watch. */
    method HandleEvent(read: ChannelRead, current: Option<int32>) returns (keep: bool, calls: seq<DbusCall>)
      requires Accepted(pv, read) && current.Some? ==> NextDefined(current.value, brightnessMax)
      modifies this`pv
      ensures keep
      ensures Outcome(pv, calls) == HandleEventSpec(old(pv), brightnessMax, read, current)
    {
      keep := true;
      calls := [];
      if read.bytesRead > 0 {
        if read.bytesRead != INPUT_EVENT_SIZE {
          return;
        }
      } else {
        return;
      }
      var ev := read.ev;
      if ev.evType == EV_MSC && ev.value == HOTKEY_SCANCODE {
        var td := TimerSub(ev.time, pv.time);
        pv := ev;
        if Debounce(td) {
          calls := calls + [GetBrightness];
          if current.Some? {
            var next := NextBrightness(current.value, brightnessMax);
            calls := calls + [SetBrightness(next)];
          }
        }
      }
    }
  }

  /** The previous event after a run of events, handled in order. */
  function RunPv(pv: InputEvent, events: seq<ChannelRead>): InputEvent
    decreases |events|
  {
    if events == [] then pv else RunPv(PvAfter(pv, events[0]), events[1..])
  }

  /** The most recent hotkey event among the events, or `pv` when there is none. */
  function LastHotkey(pv: InputEvent, events: seq<ChannelRead>): InputEvent
    decreases |events|
  {
    if events == [] then pv
    else if IsHotkey(events[|events| - 1]) then events[|events| - 1].ev
    else LastHotkey(pv, events[..|events| - 1])
  }

  lemma {:induction false} RunPvSnoc(pv: InputEvent, events: seq<ChannelRead>, read: ChannelRead)
    ensures RunPv(pv, events + [read]) == PvAfter(RunPv(pv, events), read)
    decreases |events|
  {
    if events == [] {
      assert [] + [read] == [read];
    } else {
      assert (events + [read])[1..] == events[1..] + [read];
      RunPvSnoc(PvAfter(pv, events[0]), events[1..], read);
    }
  }

  /** The debounce reference is the last hotkey event, not the last one that
      changed the brightness: after any run of events the previous-event record
      is the most recent hotkey event. */
  lemma {:induction false} RunPvIsLastHotkey(pv: InputEvent, events: seq<ChannelRead>)
    ensures RunPv(pv, events) == LastHotkey(pv, events)
    decreases |events|
  {
    if events != [] {
      var init := events[..|events| - 1];
      var last := events[|events| - 1];
      assert events == init + [last];
      RunPvSnoc(pv, init, last);
      RunPvIsLastHotkey(pv, init);
    }
  }

  /** The level after `k` accepted presses starting from `b`. */
  function Presses(b: int32, k: nat, max: int32): (r: int32)
    requires 0 <= b <= max < INT32_MAX
    ensures 0 <= r <= max
    decreases k
  {
    if k == 0 then b else Presses(NextBrightness(b, max), k - 1, max)
  }

  lemma {:induction false} PressesClimb(b: int32, j: nat, max: int32)
    requires 0 <= b && b + j <= max < INT32_MAX
    ensures Presses(b, j, max) == b + j
    decreases j
  {
    if j > 0 {
      PressesClimb(b + 1, j - 1, max);
    }
  }

  lemma {:induction false} PressesAdd(b: int32, i: nat, j: nat, max: int32)
    requires 0 <= b <= max < INT32_MAX
    ensures Presses(b, i + j, max) == Presses(Presses(b, i, max), j, max)
    decreases i
  {
    if i > 0 {
      PressesAdd(NextBrightness(b, max), i - 1, j, max);
    }
  }

  /** max + 1 accepted presses bring the brightness back where it started. */
  lemma PressesFullCycle(b: int32, max: int32)
    requires 0 <= b <= max < INT32_MAX
    ensures Presses(b, max + 1, max) == b
  {
    PressesClimb(b, max - b, max);
    PressesAdd(b, max - b, 1, max);
    assert Presses(max, 1, max) == 0;
    PressesAdd(b, max - b + 1, b, max);
    PressesClimb(0, b, max);
  }

  /** Within one cycle every level from 0 to max is reached. */
  lemma PressesReachEvery(b: int32, level: int32, max: int32)
    requires 0 <= b <= max < INT32_MAX && 0 <= level <= max
    ensures exists k: nat :: k <= max && Presses(b, k, max) == level
  {
    if b <= level {
      PressesClimb(b, level - b, max);
      assert Presses(b, level - b, max) == level;
    } else {
      var k: nat := max - b + 1 + level;
      PressesClimb(b, max - b, max);
      PressesAdd(b, max - b, 1, max);
      assert Presses(max, 1, max) == 0;
      PressesAdd(b, max - b + 1, level, max);
      PressesClimb(0, level, max);
      assert Presses(b, k, max) == level;
    }
  }
}
