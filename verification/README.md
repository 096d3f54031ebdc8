# Virtual sensor engine — a Dafny model

The repository holds two near-identical Python scripts, `group05a_script.py` and
`publisher.py`. Each one simulates a set of IoT sensors that publish over MQTT. Every
sensor runs a generator loop. On each pass the loop draws a random integer, replaces
its running value by `round(fraction*value + (1-fraction)*draw, decimal)`, and then
does one of two things:

- a periodic sensor (`interval != 0`) publishes the new value on `/group05a/<name>`;
- a triggered sensor (`interval == 0`) publishes only when the global `trigger`
  holds its id, and then resets `trigger` to `-1`.

The main thread gives each catalog entry a sequential id (`seed`) and starts its
generator. It then reads integers from the operator: `-1` exits, and any other integer
is written into `trigger`.

This project models that engine sequentially:

- `params.dfy` (`SensorParams`): the parameter set and the three checks `create_sensor` makes.
- `rounding.dfy` (`Rounding`): Python's `round(x, ndigits)`, modelled exactly on reals
  (ties go to the even neighbour; `None` rounds to a whole number).
- `trigger.dfy` (`Trigger`): the shared `trigger` slot as a class. It holds the
  check-then-clear done by a triggered sensor and the operator's command loop. It also
  has specification functions for replaying operator input (`SlotAfter`) and for one
  polling round by several sensors (`PollRound`).
- `generator.dfy` (`Generator`): one sensor as a class. `Tick` is one pass of the
  generator loop, with the random draw as an argument. `Run` repeats `Tick` over a
  sequence of draws. The `Trajectory` function and the lemmas about it give the value
  bounds and the constant-sensor property.
- `group05a.dfy` (`Group05a`): catalog resolution (type-table lookup or explicit
  parameter list) and the id loop.
- `publisher.py` is covered by `publisher.dfy` (`Publisher`): its catalog entries are
  passed straight through, and the same id loop runs over them.

How the two scripts share the model:

- The validation (publisher.py:45-50) and the command loop (publisher.py:100-109) are
  the same as group05a_script.py:72-77 and 148-157, apart from the text of the error
  messages. The same members model them.
- Inside `create_sensor`, the only behavioural difference is in the generator step.
  When `low == high`, group05a uses `low` as the draw. publisher.py still asks numpy
  for an integer in the empty range `[low, low)`. numpy raises, and the `except` clause
  ends that sensor's generator. The model marks this with `Generator.Variant` and
  `DrawRaises`.
- Start-up differs as well. group05a checks that each entry's name is a string and
  resolves its type name or explicit list before starting a thread
  (group05a_script.py:125-136, `Group05a.Resolve`). publisher.py passes each catalog
  tuple straight to the thread (publisher.py:94, `Publisher.InitSensors`). There a
  non-string name is only noticed when the subtopic is built (publisher.py:60); the
  model's `Publisher.Entry` holds a string name, so that failure is not representable.

Results worth knowing:

- With `0 <= fraction <= 1`, a non-negative `decimal` and integer limits, every value
  stays inside `[low, high]`, even after rounding (`TrajectoryInRange`). No
  rounding overshoot is possible, because the limits are whole numbers.
- `create_sensor` rejects `fraction > 1` but accepts a negative fraction. It also
  accepts a negative `decimal`. `NegativeFractionLeavesLimits` and
  `NegativeDecimalLeavesLimits` give concrete parameter sets that pass validation and
  leave the documented limits on the first pass.
- A triggered sensor advances its value on every pass, not only when it publishes. The
  published value is whatever was computed on the pass that saw the matching code.
  The code does this, and the model follows the code.
- In the code, the check-then-clear on `trigger` is not atomic. `PollRound` models the
  round with each check-and-clear done as one step. Under that assumption, only the
  sensors that actually poll take part: the entries that resolved, passed
  `create_sensor`'s checks and have `interval == 0`. A code is consumed exactly when
  it is the id of such a sensor, and then only by that sensor. Any other code, for
  example the id of a periodic sensor or of an entry that failed to start, stays in
  the slot (`PollRoundMatchesOwner`, `TriggerReachesOnlyOwner`). In the shipped
  catalog these sensors are ids 1 and 3 (`ShippedTriggeredIds`).

## Model

| member | source | states |
|---|---|---|
| `SensorParams.Validate` | group05a_script.py:72-77 | accepts exactly the parameter sets with `low <= high`, `interval >= 0` and `fraction <= 1`, returning them unchanged; otherwise returns the error of the first failed check, in source order (low>high, then interval<0, then fraction>1); no lower bound on the fraction |
| `Rounding.RoundHalfEven` | group05a_script.py:95 | the result is within 0.5 of the input, and on an exact tie it is the even neighbour |
| `Rounding.RoundTo` | group05a_script.py:95 | `round(x, None)` is a whole number within 0.5 of `x`; `round(x, d)` is a multiple of `10^-d` within half a unit of the `d`-th decimal place (`0.5 / 10^d`) of `x`, for any `d`; on an exact tie the last kept digit is even |
| `Rounding.RoundHalfEvenMonotone` | group05a_script.py:95 | rounding preserves order |
| `Rounding.RoundToBetweenIntegers` | group05a_script.py:95 | rounding to a whole number or to a non-negative number of places keeps a value that lies between two integers between them |
| `Rounding.RoundToOfInt` | group05a_script.py:95 | rounding a whole number to a non-negative number of places returns it unchanged |
| `Trigger.Apply` | group05a_script.py:151-155 | an integer other than `-1` overwrites the slot; `-1` and malformed input leave it as it was |
| `Trigger.SlotAfter` | group05a_script.py:148-157 | after replaying operator input the slot holds either its starting value or some non-exit integer the operator entered |
| `Trigger.ExitAt` | group05a_script.py:151-153 | gives the position of the first exit code `-1` in the input, with no earlier exit code; gives -1 exactly when the input holds no exit code |
| `Trigger.SlotAfterAppend` | group05a_script.py:148-157 | replaying operator input in two parts leaves the slot as replaying it at once |
| `Trigger.LastWriteWins` | group05a_script.py:154-155 | after any input history, a non-exit integer leaves exactly that integer in the slot |
| `Trigger.IgnoredInputs` | group05a_script.py:150-157 | malformed input and the exit code leave the slot as it was |
| `Trigger.NoWritesNoChange` | group05a_script.py:150-157 | a run of only malformed inputs and exit codes never changes the slot |
| `Trigger.PollRound` | group05a_script.py:102-108 | one poll result per polling sensor |
| `Trigger.PollRoundMatchesOwner` | group05a_script.py:102-108 | with distinct non-negative ids and check-and-clear done as one step, exactly the sensor whose id is pending sees a match (none if the code is no sensor's id); the slot is then empty, or unchanged when nobody matched |
| `Trigger.TriggerSlot.constructor` | group05a_script.py:60 | the slot starts as "no trigger" (-1) |
| `Trigger.TriggerSlot.SetPending` | group05a_script.py:155 | overwrites the slot with the code |
| `Trigger.TriggerSlot.TryConsume` | group05a_script.py:104-108 | matches exactly when the slot holds the id; a match resets the slot to -1, otherwise the slot is left unchanged |
| `Trigger.TriggerSlot.Command` | group05a_script.py:150-157 | `-1` asks to exit and leaves the slot; any other integer overwrites it; malformed input changes nothing and the loop continues |
| `Trigger.TriggerSlot.ControlLoop` | group05a_script.py:148-157 | reads input up to and including the first `-1`, or all of it when there is no `-1`; the slot ends as the replay of exactly the inputs read |
| `Generator.Midpoint` | group05a_script.py:86 | the starting value lies within the limits, equally far from both |
| `Generator.Trajectory` | group05a_script.py:90-95 | computes one value per pass, in order, each from the one before |
| `Generator.PlacesKeepsValue` | group05a_script.py:80-81 | replacing `decimal == 0` by `None` gives the same rounded value as rounding to 0 places |
| `Generator.NextValue` | group05a_script.py:91-95 | one pass gives the blend of the previous value and the draw (`low` when `low == high`), rounded to `decimal` places (a whole number for 0): within 0.5 of it for `decimal == 0`, within half a unit of the last kept place otherwise |
| `Generator.TrajectoryHasPlaces` | group05a_script.py:69 | every value a sensor computes has `decimal` decimal places: a whole number for `decimal == 0`, a multiple of `10^-decimal` otherwise |
| `Generator.BlendBetween` | group05a_script.py:95 | with `0 <= fraction <= 1`, the unrounded update lies between the limits when the previous value and the draw do |
| `Generator.NextValueInRange` | group05a_script.py:91-95 | with `0 <= fraction <= 1` and `decimal >= 0`, one pass, rounding included, keeps the value within the documented limits (lines 65-66) |
| `Generator.TrajectoryInRange` | publisher.py:63-65 | under the same conditions, every value of every pass stays in `[low, high]`, for draws in `[low, high)` |
| `Generator.ConstantSensor` | group05a_script.py:86-95 | a sensor with `low == high` starts at `low` and every value it computes is `low`, whatever the fraction (for `decimal >= 0`) |
| `Generator.TrajectorySnoc` | group05a_script.py:90-95 | one more pass appends exactly one value, computed from the current one |
| `Generator.NegativeFractionLeavesLimits` | group05a_script.py:76-77 | `fraction = -1` passes validation, and the first pass from the midpoint gives -5, below `low = 0` |
| `Generator.NegativeDecimalLeavesLimits` | group05a_script.py:80-81 | `decimal = -1` passes validation, and the first pass from the midpoint can give 0, below `low = 1` |
| `Generator.Co2Step` | group05a_script.py:48 | with the `co2` parameters, one pass from 700 with draw 900 gives 760 |
| `Generator.Sensor.constructor` | publisher.py:52-61 | a validated sensor starts alive at the midpoint, with nothing published, rounding places from `decimal` (0 meaning whole numbers) and subtopic `/group05a/<name>` |
| `Generator.Sensor.Tick` | group05a_script.py:90-108 | one pass: the new value is the rounded blend of the old value and the draw (`low` when `low == high`); periodic sensors publish it and leave the slot alone; triggered sensors publish it and reset the slot only when the slot held their id, and otherwise leave both alone; in the publisher variant a `low == high` sensor stops instead |
| `Generator.Sensor.Run` | publisher.py:63-82 | the loop over a sequence of draws: the value ends as the last value of the trajectory; a periodic sensor has published the whole trajectory in order; a triggered sensor has published the first value only if its code was pending, leaving the slot empty; a publisher-variant `low == high` sensor stops on the first pass having published nothing |
| `Generator.TriggeredScenario` | group05a_script.py:102-108 | with code 3 pending, a pass of triggered sensor 1 leaves the slot at 3; a pass of triggered sensor 3 then publishes 1 and empties the slot |
| `Generator.CreateSensor` | group05a_script.py:70-86 | fails with the validation error exactly when validation fails; otherwise starts a fresh sensor with these parameters and id at the midpoint |
| `Group05a.Resolve` | group05a_script.py:125-136 | a non-string name is rejected first, whatever the spec; a string type resolves to the name plus the type-table parameters exactly when it is in the table, and a type missing from the table always fails as unavailable under its own name; an explicit list resolves to the name plus that list; anything else is an invalid spec |
| `Group05a.InitSensors` | group05a_script.py:121-145 | one channel per catalog entry, in order; entry `i` gets id `i` and its resolution result, including entries that fail |
| `Group05a.IdsFromSound` | group05a_script.py:121-141 | when ids are catalog positions, every id on the list of selected channels is the position of a selected channel |
| `Group05a.IdsFromIncreasing` | group05a_script.py:121-141 | when ids are catalog positions, the selected ids are listed in strictly increasing order, so each appears once |
| `Group05a.IdsFromComplete` | group05a_script.py:121-141 | when ids are catalog positions, the id of every selected channel is on the list |
| `Group05a.TriggerReachesOnlyOwner` | group05a_script.py:79-108 | with ids handed out by the start-up loop and only the running triggered sensors polling, a code is consumed exactly when it is such a sensor's id, by that sensor alone, leaving the slot empty; any other code is matched by nobody and stays in the slot |
| `Group05a.ShippedTriggeredIds` | group05a_script.py:30-54 | in the shipped catalog the running triggered sensors are exactly ids 1 (`smo01`) and 3 (`occ01`) |
| `Group05a.ShippedCatalogStarts` | group05a_script.py:30-54 | every entry of the shipped catalog resolves, and its parameters pass validation |
| `Publisher.InitSensors` | publisher.py:91-97 | one channel per catalog entry, in order; entry `i` gets id `i` and its tuple unchanged |
| `Publisher.ShippedSensorsRun` | publisher.py:24-33 | every shipped sensor passes validation and has `low < high`, so none stops on its first draw |

## Left out

- MQTT client: the model does not cover connecting, credentials, disconnecting or
  transport (group05a_script.py:115-118, 160-163; publisher.py:85-88, 112-115). A
  publish is an append to the sensor's ghost `published` log.
- Threads and sleeps are not modelled: `time.sleep`, the 0.2 s pause that lets each
  thread copy the global `seed` before it changes, and concurrent scheduling. The id is
  passed to the sensor explicitly.
- The race on `trigger` is not modelled. In the source, the check at
  group05a_script.py:104 and the clear at line 108 are separate steps, so two threads
  or a new operator write can interleave between them. The model performs each
  check-then-clear as one step.
- The random stream is not modelled. numpy's `default_rng(seed)` is foreign code; each
  draw is an argument constrained to `[low, high)`. Reproducibility from the seed is
  not modelled.
- Python and numpy float arithmetic is not modelled. Values are exact reals, and
  `round` is exact decimal rounding with ties to even. Binary-float effects (for
  example `round(2.675, 2) == 2.67`) are not reproduced.
- Console I/O is not modelled: `print`, `input` and `sys.exit`. Operator input is
  modelled as an integer or malformed text.
- The shape of catalog entries is fixed by the model's types. Explicit parameter lists
  are five typed fields. group05a never checks their length or element types, and a
  wrong list would fail inside the thread call. Entries with fewer than two elements
  are not representable either.
- Numeric types are narrower than in Python: `low`, `high`, `interval` and `decimal`
  are integers and `fraction` is a real. Fractional limits or intervals are not
  modelled.
- `Generator.Sensor.Run` covers only a finite number of passes with no operator input
  between them. The endless loop and its interleaving with the operator are covered
  pass by pass: `Tick` and `Command` for one sensor, `PollRound` for several sensors
  sharing one pending code.
- Error messages are not modelled. Each rejection is a distinct error value, not the
  printed text.
- publisher.py's catalog entries are modelled as a string name plus five typed
  parameters. A non-string name, which would fail when the subtopic is built
  (publisher.py:60) and end that thread, is not representable.
