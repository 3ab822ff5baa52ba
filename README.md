# Arduino LED projects: fixed-capacity vector and debounced button

This project models, in Dafny, the two pieces of logic in the Arduino side of
the LED projects:

- `FixedVector<maxSize, T>`: a list stored in an embedded array of `maxSize`
  slots with a `length` counter, so that it never allocates on the heap.
  `add` appends and silently ignores a full list, `remove(index)` shifts the
  later items down one slot and silently ignores an index out of range,
  `clear` resets the length, `len` reports it, and `operator[]` gives
  unchecked access to a slot. Modelled as the class
  `FixedVectors.FixedVector` over a Dafny `array`, with the class invariant
  `0 <= length <= maxSize` and the abstract contents `arr[..length]`. Its
  methods are specified by the functions `Appended`, `Removed` and
  `ShiftedLeft`, whose properties are proved as lemmas.
- `Button`: a debounced rising-edge detector. `isClicked` looks at the pin
  only when more than `debounce_interval` milliseconds have passed since
  `last_check`, and inverts the reading in pull-up mode. It reports a click
  only on a look that sees logical state 1 while the recorded state is 0.
  The recorded state is initially 0, so a button held at start-up clicks on
  its first look. Modelled as the class `Buttons.Button`. Its `IsClicked` method takes the clock value
  (`millis()`) and the pin reading (`digitalRead`) as parameters. It is
  specified by the function `Poll`. Time is the 32-bit `unsigned long`
  (`ULong`, the integers in `[0, 2^32)`), and the elapsed time is the
  difference modulo 2^32, so a wrap of the clock behaves as on the board.
  The function `Run` polls once per entry of a sequence of readings. The
  lemmas about `Run` show that holding the button down never yields a
  second click.

## Model

| member | source | states |
|---|---|---|
| FixedVectors.Appended | physics_based_led_effect_project/physics_based_led_effect/FixedVector.h:27-34 | adding keeps a list within its capacity, never evicts or reorders stored items, and grows the list by exactly the new item if and only if there was room |
| FixedVectors.Removed | physics_based_led_effect_project/physics_based_led_effect/FixedVector.h:36-44 | an index in range removes exactly one item: earlier items stay put and later ones move down one place; an index that is negative or not below the length leaves the list as it was |
| FixedVectors.ShiftedLeft | physics_based_led_effect_project/physics_based_led_effect/FixedVector.h:40-43 | after the in-place shift, the used prefix of the array is the list with the item removed, and the slots from the old last one on keep their values |
| FixedVectors.AppendedAllKeepsFirstThatFit | physics_based_led_effect_project/physics_based_led_effect/FixedVector.h:27-34 | adding a run of items keeps, in order, exactly those that fit in the capacity and drops every later one |
| FixedVectors.RemovedMultiset | physics_based_led_effect_project/physics_based_led_effect/FixedVector.h:36-44 | removing at an index in range takes out exactly one occurrence of the item there and nothing else |
| FixedVectors.RemoveUndoesAdd | physics_based_led_effect_project/physics_based_led_effect/FixedVector.h:27-44 | removing the item just added to a list that had room restores the list |
| FixedVectors.AddAfterClear | physics_based_led_effect_project/physics_based_led_effect/FixedVector.h:27-34 | adding to an empty list of positive capacity gives the one-item list |
| FixedVectors.FixedVector.constructor | physics_based_led_effect_project/physics_based_led_effect/FixedVector.h:19-25 | a new vector satisfies the invariant, has `maxSize` slots and is empty |
| FixedVectors.FixedVector.Add | physics_based_led_effect_project/physics_based_led_effect/FixedVector.h:27-34 | keeps the invariant; with room, the contents become the old contents plus the item, the length grows by one and only slot `length` of the array changes; when full, the length and every slot are unchanged |
| FixedVectors.FixedVector.Remove | physics_based_led_effect_project/physics_based_led_effect/FixedVector.h:36-44 | keeps the invariant; an index in range shifts the later items down, lowers the length by one and makes the contents `old[..index] + old[index+1..]`; any other index changes nothing |
| FixedVectors.FixedVector.At | physics_based_led_effect_project/physics_based_led_effect/FixedVector.h:46-49 | reading index `i` with `0 <= i < length` returns the `i`-th item of the contents and changes nothing |
| FixedVectors.FixedVector.SetAt | physics_based_led_effect_project/physics_based_led_effect/FixedVector.h:46-49 | writing through the returned reference replaces the `i`-th item and nothing else |
| FixedVectors.FixedVector.Len | physics_based_led_effect_project/physics_based_led_effect/FixedVector.h:51-54 | returns the number of stored items, which is between 0 and `maxSize`, and changes nothing |
| FixedVectors.FixedVector.Clear | physics_based_led_effect_project/physics_based_led_effect/FixedVector.h:56-59 | keeps the invariant, makes the length 0 and the contents empty, and leaves the array slots as they were |
| FixedVectors.ClearThenAdd | physics_based_led_effect_project/physics_based_led_effect/FixedVector.h:56-59 | clearing a vector of positive capacity and then adding `x` leaves exactly `[x]` |
| Buttons.Elapsed | flappy_led/Button.cpp:23-24 | the elapsed time is the 32-bit duration that, added to `last_check` on the wrapping clock, gives the current time; without a wrap it is the ordinary difference |
| Buttons.ElapsedUnique | flappy_led/Button.cpp:24 | no other 32-bit duration leads from `last_check` to the current time |
| Buttons.LogicalState | flappy_led/Button.cpp:27-28 | in pull-up mode the logical state is 1 exactly when the pin reads 0, and 0 otherwise; without pull-up it is the reading itself |
| Buttons.Poll | flappy_led/Button.cpp:20-33 | the pin is looked at exactly when the wrapped elapsed time is strictly greater than the interval; otherwise there is no click and the state is unchanged; a look records the current time and the logical state; a click happens exactly on a look that sees 1 while the recorded state is 0 |
| Buttons.HeldAtStartClicksOnFirstLook | flappy_led/Button.h:9-10 | with `previous_state` initially 0, a button already held down at start-up reports a click on its first look |
| Buttons.PressedLookBlocksNextClick | flappy_led/Button.cpp:29-30 | after a look that saw the button pressed, the next call cannot report a click |
| Buttons.SamplesAcrossClockWrap | flappy_led/Button.cpp:23-26 | after `millis()` wraps, the pin is looked at once the wrapped difference exceeds the interval, and `last_check` becomes the current time |
| Buttons.Run | flappy_led/Button.cpp:20-33 | polling once per reading yields one outcome per reading (the per-call form is RunStep's) |
| Buttons.RunStep | flappy_led/Button.cpp:24-30 | the `k`-th outcome of a run is one call of `isClicked` from the state the first `k` calls left |
| Buttons.HeldUntilReleased | flappy_led/Button.cpp:29-30 | a recorded state other than 0 persists until a look sees logical state 0 |
| Buttons.ReleaseBetweenClicks | flappy_led/Button.cpp:29-30 | between any two clicks of a run there is a look that saw the button released, so holding the button down yields at most one click |
| Buttons.Button.constructor | flappy_led/Button.cpp:4-7 | with the default member initialisers of Button.h:7-10, `Button(pin)` sets the pin, pull-up mode, the default 20 ms interval, and zero `last_check` and `previous_state` |
| Buttons.Button.WithPullup | flappy_led/Button.cpp:9-12 | with the default member initialisers of Button.h:8-10, `Button(pin, isPullup)` sets the pin and the mode, and keeps the default 20 ms interval and zero state |
| Buttons.Button.WithInterval | flappy_led/Button.cpp:14-18 | with the default member initialisers of Button.h:9-10, `Button(pin, isPullup, interval)` sets the pin, the mode and the interval, with zero state |
| Buttons.Button.IsClicked | flappy_led/Button.cpp:20-33 | returns what `Poll` reports for the button's settings, old state, clock value and reading; the new `last_check` and `previous_state` are the state `Poll` gives; the modifies clause leaves the pin, the mode and the interval untouched |

## Left out

- The Unity scripts (`ServoContoller.cs`, `UltrasonicSensor.cs`): engine callbacks, serial-port I/O and floating-point geometry, with no logic of their own to state.
- `Light`: a single floating-point update `position += velocity * delta_time`; floating point is not modelled.
- `pinMode` in the `Button` constructors is a hardware call and is not modelled.
- `millis()` and `digitalRead(pin)` are parameters of `IsClicked`. The board reads the pin only when the debounce window has passed; the model always takes a reading and ignores it otherwise.
- The pin reading is an unbounded `int`. `digitalRead` only returns LOW (0) or HIGH (1), and the model does not restrict it to those.
- The 16-bit width of `int` on AVR boards is not modelled: `length` never exceeds `maxSize`, which is itself an `int`, so it cannot overflow.
- The array slots of a new `FixedVector` are default-initialised in C++ (FixedVector.h:20-25): indeterminate for a scalar `T` in local storage, zero for a vector with static storage, set by the default constructor for a class type. The model gives them the default value of `T`. Nothing observable depends on this, because the contents never include those slots.
- The default debounce interval `DEFAULT_DEBOUNCE_INTERVAL_MS` is the initialiser of `debounce_interval` at Button.h:8.
- FixedVectors.FixedVector.At: requires `0 <= index < length`, because C++ does no bounds check and an index outside the array is undefined behaviour; an index in `[length, maxSize)` would read a stale slot.
- FixedVectors.FixedVector.SetAt: requires `0 <= index < length` for the same reason; a write to a slot in `[length, maxSize)` through the reference is not modelled.
