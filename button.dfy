/**
 * A debounced push button. Each poll looks at the pin only when more than
 * the debounce interval has passed since the last look, and reports a click
 * only on a look that sees pressed (1) while the recorded state is released
 * (0). The recorded state starts at 0, so a button held at start-up clicks on
 * its first look. Time is Arduino's `unsigned long` millisecond counter, which
 * is 32 bits wide and wraps around.
 */
module Buttons {

  /** Arduino's 32-bit `unsigned long`. */
  type ULong = n: int | 0 <= n < 0x1_0000_0000

  /** The debounce interval a button gets unless it is given one, in milliseconds (the initialiser of `debounce_interval`). */
  const DEFAULT_DEBOUNCE_INTERVAL_MS: ULong := 20

  /** `now - last` in `unsigned long` arithmetic: the milliseconds since `last`, modulo 2^32. */
  function Elapsed(now: ULong, last: ULong): (d: ULong)
    // adding the elapsed time to `last` on the wrapping clock gives `now`
    ensures (last + d) % 0x1_0000_0000 == now
    // without a wrap of the clock in between it is the ordinary difference
    ensures last <= now ==> d == now - last
  {
    (now - last) % 0x1_0000_0000
  }

  /** `Elapsed` is the only 32-bit duration that leads from `last` to `now`. */
  lemma ElapsedUnique(now: ULong, last: ULong, d: ULong)
    requires (last + d) % 0x1_0000_0000 == now
    ensures d == Elapsed(now, last)
  {
  }

  /**
   * The logical state for a raw pin reading: with the internal pull-up the
   * pin reads LOW while pressed, so the reading is inverted (C++ `!raw`);
   * otherwise the reading is taken as it is.
   */
  function LogicalState(isPullup: bool, raw: int): (s: int)
    ensures isPullup ==> (s == 1 <==> raw == 0) && (s == 0 <==> raw != 0)
    ensures !isPullup ==> s == raw
  {
    if isPullup then (if raw == 0 then 1 else 0) else raw
  }

  /** The fields a button is configured with. */
  datatype Settings = Settings(isPullup: bool, debounceInterval: ULong)

  /** The fields a poll reads and updates. */
  datatype PollState = PollState(lastCheck: ULong, previousState: int)

  /** What one poll does: whether it looked at the pin, whether it reported a click, the state after it. */
  datatype Outcome = Outcome(sampled: bool, clicked: bool, next: PollState)

  /** One call of `isClicked` at time `now`, with `raw` the reading the pin would give. */
  function Poll(settings: Settings, state: PollState, now: ULong, raw: int): (o: Outcome)
    // the pin is looked at exactly when the debounce interval has strictly passed
    ensures o.sampled <==> Elapsed(now, state.lastCheck) > settings.debounceInterval
    // within the interval nothing happens
    ensures !o.sampled ==> !o.clicked && o.next == state
    // a look records its time and the logical state it saw
    ensures o.sampled ==> o.next == PollState(now, LogicalState(settings.isPullup, raw))
    // a click is a look that sees 1 while the recorded state is 0 (initially 0,
    // so a button held at start-up clicks on its first look); only a look can report one
    ensures o.clicked <==> o.sampled && state.previousState == 0 && o.next.previousState == 1
  {
    if Elapsed(now, state.lastCheck) > settings.debounceInterval then
      var current := LogicalState(settings.isPullup, raw);
      Outcome(true, current == 1 && state.previousState == 0, PollState(now, current))
    else
      Outcome(false, false, state)
  }

  /**
   * A new button that is already held down reports a click on its first
   * look: the recorded state starts at 0, not at the state of the pin.
   */
  lemma HeldAtStartClicksOnFirstLook(settings: Settings, now: ULong, raw: int)
    requires Elapsed(now, 0) > settings.debounceInterval
    requires LogicalState(settings.isPullup, raw) == 1
    ensures Poll(settings, PollState(0, 0), now, raw).clicked
  {
  }

  /** A look at the pin that saw the button pressed rules out a click on the next call. */
  lemma PressedLookBlocksNextClick(settings: Settings, state: PollState, now: ULong, raw: int, now': ULong, raw': int)
    requires Poll(settings, state, now, raw).sampled
    requires LogicalState(settings.isPullup, raw) == 1
    ensures !Poll(settings, Poll(settings, state, now, raw).next, now', raw').clicked
  {
  }

  /**
   * When `millis()` has wrapped past 2^32 since the last look, the button is
   * still looked at once the wrapped difference exceeds the interval.
   */
  lemma SamplesAcrossClockWrap(settings: Settings, state: PollState, now: ULong, raw: int)
    requires now < state.lastCheck
    requires now + 0x1_0000_0000 - state.lastCheck > settings.debounceInterval
    ensures Poll(settings, state, now, raw).sampled
    ensures Poll(settings, state, now, raw).next.lastCheck == now
  {
  }

  /** One call of `isClicked`: the clock value and the pin reading it would see. */
  datatype Reading = Reading(now: ULong, raw: int)

  /** The outcomes of polling a button once per reading, in order. */
  function Run(settings: Settings, state: PollState, readings: seq<Reading>): (outs: seq<Outcome>)
    ensures |outs| == |readings|
    decreases |readings|
  {
    if readings == [] then []
    else
      var o := Poll(settings, state, readings[0].now, readings[0].raw);
      [o] + Run(settings, o.next, readings[1..])
  }

  /** The state a run is in just before its `k`-th call. */
  function StateBefore(settings: Settings, state: PollState, readings: seq<Reading>, k: nat): PollState
    requires k <= |readings|
  {
    if k == 0 then state else Run(settings, state, readings)[k - 1].next
  }

  /** Each call of a run is a poll from the state the previous calls left. */
  lemma {:induction false} RunStep(settings: Settings, state: PollState, readings: seq<Reading>, k: nat)
    requires k < |readings|
    ensures Run(settings, state, readings)[k]
         == Poll(settings, StateBefore(settings, state, readings, k), readings[k].now, readings[k].raw)
    decreases k
  {
    if k > 0 {
      var o := Poll(settings, state, readings[0].now, readings[0].raw);
      var rest := readings[1..];
      RunStep(settings, o.next, rest, k - 1);
      assert Run(settings, state, readings)[k] == Run(settings, o.next, rest)[k - 1];
      assert readings[k] == rest[k - 1];
      if k > 1 {
        assert Run(settings, state, readings)[k - 1] == Run(settings, o.next, rest)[k - 2];
      }
    }
  }

  /**
   * Once the recorded state is not 0 it stays so until a look sees the
   * button released (logical state 0).
   */
  lemma {:induction false} HeldUntilReleased(settings: Settings, state: PollState, readings: seq<Reading>, i: nat, m: nat)
    requires i <= m < |readings|
    requires Run(settings, state, readings)[i].next.previousState != 0
    requires forall k :: i < k <= m ==>
      !(Run(settings, state, readings)[k].sampled && Run(settings, state, readings)[k].next.previousState == 0)
    ensures Run(settings, state, readings)[m].next.previousState != 0
    decreases m - i
  {
    if m > i {
      HeldUntilReleased(settings, state, readings, i, m - 1);
      RunStep(settings, state, readings, m);
    }
  }

  /**
   * Between two clicks of a run there is a look at the pin that saw the
   * button released: holding the button down never yields a second click.
   */
  lemma ReleaseBetweenClicks(settings: Settings, state: PollState, readings: seq<Reading>, i: nat, j: nat)
    requires i < j < |readings|
    requires Run(settings, state, readings)[i].clicked
    requires Run(settings, state, readings)[j].clicked
    ensures exists k :: (i < k < j &&
      Run(settings, state, readings)[k].sampled && Run(settings, state, readings)[k].next.previousState == 0)
  {
    var outs := Run(settings, state, readings);
    if forall k :: i < k < j ==> !(outs[k].sampled && outs[k].next.previousState == 0) {
      RunStep(settings, state, readings, i);
      HeldUntilReleased(settings, state, readings, i, j - 1);
      RunStep(settings, state, readings, j);
      assert false;
    }
  }

  /** The button: its configuration, the pin it reads and the state of the debouncer. */
  class Button {
    var isPullup: bool
    var debounceInterval: ULong
    var lastCheck: ULong
    var previousState: int
    var pin: int

    function CurrentSettings(): Settings
      reads this
    {
      Settings(isPullup, debounceInterval)
    }

    function CurrentState(): PollState
      reads this
    {
      PollState(lastCheck, previousState)
    }

    /** `Button(pin)`: pull-up mode and the default interval. */
    constructor (pin: int)
      ensures this.pin == pin && isPullup && debounceInterval == DEFAULT_DEBOUNCE_INTERVAL_MS
      ensures lastCheck == 0 && previousState == 0
    {
      this.pin := pin;
      isPullup := true;
      debounceInterval := DEFAULT_DEBOUNCE_INTERVAL_MS;
      lastCheck := 0;
      previousState := 0;
    }

    /** `Button(pin, isPullup)`: the given mode and the default interval. */
    constructor WithPullup(pin: int, isPullup: bool)
      ensures this.pin == pin && this.isPullup == isPullup
      ensures debounceInterval == DEFAULT_DEBOUNCE_INTERVAL_MS
      ensures lastCheck == 0 && previousState == 0
    {
      this.pin := pin;
      this.isPullup := isPullup;
      debounceInterval := DEFAULT_DEBOUNCE_INTERVAL_MS;
      lastCheck := 0;
      previousState := 0;
    }

    /** `Button(pin, isPullup, debounceIntervalMs)`: everything given. */
    constructor WithInterval(pin: int, isPullup: bool, debounceIntervalMs: ULong)
      ensures this.pin == pin && this.isPullup == isPullup
      ensures debounceInterval == debounceIntervalMs
      ensures lastCheck == 0 && previousState == 0
    {
      this.pin := pin;
      this.isPullup := isPullup;
      debounceInterval := debounceIntervalMs;
      lastCheck := 0;
      previousState := 0;
    }

    /**
     * `isClicked()`, with `now` the value of `millis()` and `raw` the value
     * `digitalRead(pin)` gives. Only `lastCheck` and `previousState` change.
     */
    method IsClicked(now: ULong, raw: int) returns (clicked: bool)
      modifies this`lastCheck, this`previousState
      ensures var o := Poll(CurrentSettings(), old(CurrentState()), now, raw);
        clicked == o.clicked && CurrentState() == o.next
    {
      clicked := false;
      if Elapsed(now, lastCheck) > debounceInterval {
        lastCheck := now;
        var currentState := LogicalState(isPullup, raw);
        clicked := currentState == 1 && previousState == 0;
        previousState := currentState;
      }
    }
  }
}
