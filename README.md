# Ultrasonic presence detector

A model of `st::S_UltrasonicPresence` from ST_Anything: a presence sensor
built on an HC-SR04 ultrasonic ranger. On each poll the device checks a
sampling gate that also copes with a wrapping millisecond clock. When the gate
is due it measures an echo time and drops readings above 23200 µs (400 cm).
It then picks a threshold according to its current state, so that the
classification has hysteresis. A run-length counter debounces the
classification: presence flips on the fourth consecutive supporting sample.
A message `"<name> present"` or `"<name> notpresent"` goes out exactly when
presence changed. `refresh` re-sends the current state.

Files:

- `sensor_units.dfy` (module `SensorUnits`): the 32-bit `unsigned long` and the
  8-bit `uint8_t` of the AVR target, their wrap-around, and the conversion from
  distance to echo time (58 µs per cm, 148 µs per inch) with its inverse.
- `presence_logic.dfy` (module `PresenceLogic`): the configuration and state as
  values, and one poll as the function `Poll`. It has the gate, the validity
  filter, the threshold choice and the debounce, and lemmas about single polls
  and about runs of polls (`Run`, `Reports`).
- `presence_message.dfy` (module `PresenceMessage`): the message text, and a
  parser that serves as its inverse.
- `ultrasonic_presence.dfy` (module `St`): the class `UltrasonicPresence`. It
  has the source's fields and its constructor. `UpdateStatus` updates the fields
  step by step as the C++ does, and is proved equal to `Poll`. `Init`, `Update`,
  `Refresh` and `SendUpdate` are all there. The notifier is the field `outbox`,
  a log of sent messages that only grows.

The hardware and the clock become parameters of each poll: `now` is the first
`millis()` reading, `duration` is what `pulseIn` returns, and `after` is the
`millis()` reading taken after the measurement.

Points where the code behaves differently from what one might assume:

- The constructor validates nothing. Any thresholds are accepted, and the lemmas
  that need `shortThreshold < longThreshold` say so in their precondition.
- The counter invariant is `currentCount < requiredCounts`. The counter is reset
  in the same call in which it reaches `requiredCounts`.
- `previousTime` records the clock after every measurement, including ones whose
  reading is then discarded.
- The interval (1000) is compared with `millis()`, so it is in milliseconds.
  The comment on it in the constructor says microseconds.

## Model

| member | source | states |
|---|---|---|
| SensorUnits.WrapSub | Arduino/libraries/ST_Anything/S_UltrasonicPresence.cpp:24 | unsigned 32-bit subtraction equals the true difference when it does not underflow, and the difference plus 2^32 when it does |
| SensorUnits.ByteInc | Arduino/libraries/ST_Anything/S_UltrasonicPresence.cpp:64 | the `uint8_t` increment adds one below 255 and wraps 255 to 0 |
| SensorUnits.CentimetersRoundTrip | Arduino/libraries/ST_Anything/S_UltrasonicPresence.h:32-33 | converting centimetres to echo time at 58 µs/cm and back gives the distance again |
| SensorUnits.InchesRoundTrip | Arduino/libraries/ST_Anything/S_UltrasonicPresence.h:32-34 | converting inches to echo time at 148 µs/inch and back gives the distance again |
| SensorUnits.MicrosFromDistanceStrictlyMonotone | Arduino/libraries/ST_Anything/S_UltrasonicPresence.h:32-34 | a larger distance always converts to a strictly longer echo time, in both units |
| SensorUnits.ExampleThresholds | Arduino/libraries/ST_Anything/S_UltrasonicPresence.h:12-13 | the example thresholds 10656 and 7104 are 6 and 4 feet at 148 µs/inch, and the short one is below the long one |
| PresenceLogic.DefaultsAgree | Arduino/libraries/ST_Anything/S_UltrasonicPresence.cpp:93-98 | the maximum reading 23200 is the echo time of 400 cm, and a freshly constructed detector (count 0, 4 required) satisfies the counter invariant |
| PresenceLogic.Due | Arduino/libraries/ST_Anything/S_UltrasonicPresence.cpp:24 | the gate as written, with the short-circuit and the 32-bit subtraction; pinned down by DueIff and DueAfterWrap |
| PresenceLogic.ValidReading | Arduino/libraries/ST_Anything/S_UltrasonicPresence.cpp:41-44 | definition of the validity filter; pinned down by MaxReadingInclusive and Poll |
| PresenceLogic.CheckForLong | Arduino/libraries/ST_Anything/S_UltrasonicPresence.cpp:59 | definition of the direction selection; pinned down by SupportsIffIndicatesOpposite |
| PresenceLogic.Supports | Arduino/libraries/ST_Anything/S_UltrasonicPresence.cpp:62-63 | definition of a supporting reading; pinned down by SupportsIffIndicatesOpposite, ThresholdsInclusive and Hysteresis |
| PresenceLogic.Debounce | Arduino/libraries/ST_Anything/S_UltrasonicPresence.cpp:64-71 | definition of the counter update and flip; pinned down by PollDebounce |
| PresenceLogic.Run | Arduino/libraries/ST_Anything/S_UltrasonicPresence.cpp:114-117 | the caller invoking `update()` once per sample, in order; pinned down by the run lemmas below |
| PresenceLogic.Reports | Arduino/libraries/ST_Anything/S_UltrasonicPresence.cpp:73-75 | the presence values sent during a run, one per poll that changed presence; pinned down by SupportingRun, NonSupportingRun, FlipOnRequiredSample and BrokenRunResets |
| PresenceLogic.DueIff | Arduino/libraries/ST_Anything/S_UltrasonicPresence.cpp:24 | the gate as written, with 32-bit subtraction, is due iff the clock went backwards or at least one interval really elapsed |
| PresenceLogic.DueAfterWrap | Arduino/libraries/ST_Anything/S_UltrasonicPresence.cpp:24 | the gate is due whenever the clock went backwards, and whenever the modular elapsed time reaches the interval; after a wrap from 2^32 - 1 to 0 it fires although only 1 tick elapsed |
| PresenceLogic.SupportsIffIndicatesOpposite | Arduino/libraries/ST_Anything/S_UltrasonicPresence.cpp:46-63 | the `checkForLong` selection is right for all four polarity/state cases: a reading supports a flip iff, classified by the polarity setting (long means `longIsPresent`), it stands for the opposite of the current state |
| PresenceLogic.ThresholdsInclusive | Arduino/libraries/ST_Anything/S_UltrasonicPresence.cpp:62-63 | a reading exactly on the checked threshold supports a flip and one just beyond it (long - 1, short + 1) does not; when checking for long only `>=` long matters, otherwise only `<=` short |
| PresenceLogic.MaxReadingInclusive | Arduino/libraries/ST_Anything/S_UltrasonicPresence.cpp:41-44 | with the default maximum, a reading of exactly 23200 is valid and 23201 is discarded |
| PresenceLogic.Hysteresis | Arduino/libraries/ST_Anything/S_UltrasonicPresence.h:58-59 | with short below long, a reading strictly between the thresholds supports no flip, and no reading supports flipping both ways |
| PresenceLogic.Poll | Arduino/libraries/ST_Anything/S_UltrasonicPresence.cpp:22-77 | a poll that is not due changes nothing; a due one records the after-time; an invalid reading changes nothing else; presence changes only on a due, valid, supporting sample and leaves the count 0; the counter invariant is preserved |
| PresenceLogic.CountStaysInByte | Arduino/libraries/ST_Anything/S_UltrasonicPresence.h:62-67 | under the counter invariant the byte counter's increment never wraps and stays within `requiredCounts <= 255` |
| PresenceLogic.PollDebounce | Arduino/libraries/ST_Anything/S_UltrasonicPresence.cpp:59-71 | for a due valid sample: presence flips iff the sample supports and the count is `requiredCounts - 1` (then count 0); an earlier supporting sample adds one to the count; a non-supporting sample resets the count and keeps presence |
| PresenceLogic.Report | Arduino/libraries/ST_Anything/S_UltrasonicPresence.cpp:73-75 | at most one report per poll, present iff presence changed, carrying the new presence |
| PresenceLogic.PacedRunClock | Arduino/libraries/ST_Anything/S_UltrasonicPresence.cpp:37-38 | after a run of polls that are all due, the remembered time is the after-time of the last sample |
| PresenceLogic.RunKeepsCountInRange | Arduino/libraries/ST_Anything/S_UltrasonicPresence.cpp:64-71 | the counter invariant `currentCount < requiredCounts` holds after any sequence of polls |
| PresenceLogic.SupportingRun | Arduino/libraries/ST_Anything/S_UltrasonicPresence.cpp:62-68 | a run of due, valid, supporting samples raises the count by one per sample with no report, and flips presence with exactly one report on the sample that reaches `requiredCounts`, leaving count 0 |
| PresenceLogic.NonSupportingRun | Arduino/libraries/ST_Anything/S_UltrasonicPresence.cpp:69-71 | any non-empty run of due, valid, non-supporting samples keeps presence, leaves count 0 and reports nothing (repeating them is idempotent) |
| PresenceLogic.FlipOnRequiredSample | Arduino/libraries/ST_Anything/S_UltrasonicPresence.cpp:62-68 | from count 0, `requiredCounts` consecutive supporting samples leave presence unchanged after all but the last, and flip it with exactly one report on the last |
| PresenceLogic.BrokenRunResets | Arduino/libraries/ST_Anything/S_UltrasonicPresence.cpp:62-71 | from count 0, `requiredCounts - 1` supporting samples followed by a non-supporting one keep presence, report nothing and reset the count to 0 |
| PresenceMessage.Message | Arduino/libraries/ST_Anything/S_UltrasonicPresence.cpp:80 | the message begins with the device name and is longer than it |
| PresenceMessage.ParseMessage | Arduino/libraries/ST_Anything/S_UltrasonicPresence.cpp:80 | whenever the parser recognises a message, the message is exactly the one sent for that presence |
| PresenceMessage.ParseMessageRoundTrip | Arduino/libraries/ST_Anything/S_UltrasonicPresence.cpp:80 | parsing the message sent for a presence gives back that presence |
| PresenceMessage.MessagesDistinguishPresence | Arduino/libraries/ST_Anything/S_UltrasonicPresence.cpp:80 | the " present" and " notpresent" messages of a device are different |
| St.UltrasonicPresence.constructor | Arduino/libraries/ST_Anything/S_UltrasonicPresence.cpp:85-101 | stores name, pins, polarity and thresholds; fixes 4 required counts, interval 1000, maximum reading 23200; starts at count 0, time 0, the given initial presence, nothing sent; the counter invariant holds |
| St.UltrasonicPresence.SendUpdate | Arduino/libraries/ST_Anything/S_UltrasonicPresence.cpp:79-81 | appends the name and the current presence label to the sent messages |
| St.UltrasonicPresence.UpdateStatus | Arduino/libraries/ST_Anything/S_UltrasonicPresence.cpp:22-77 | the field updates give exactly the state `Poll` computes, the counter invariant is kept, and one message for the new presence is sent iff presence changed |
| St.UltrasonicPresence.Init | Arduino/libraries/ST_Anything/S_UltrasonicPresence.cpp:109-112 | behaves as one status update |
| St.UltrasonicPresence.Update | Arduino/libraries/ST_Anything/S_UltrasonicPresence.cpp:114-117 | behaves as one status update |
| St.UltrasonicPresence.Refresh | Arduino/libraries/ST_Anything/S_UltrasonicPresence.cpp:119-122 | sends exactly one message with the current presence and changes no state |
| St.ExampleSketch | Arduino/libraries/ST_Anything/S_UltrasonicPresence.h:9-17 | the documented configuration, fed an invalid reading, an early poll and four short readings, ends present having sent exactly "presence1 present" |

## Left out

- Hardware I/O: `setPin`'s `pinMode`/`digitalWrite` and the trigger pulse in `updateStatus` (`digitalWrite`, `delayMicroseconds`). The pins are only stored. `pulseIn` becomes the `duration` parameter.
- The clock `millis()`: its two readings in `updateStatus` are the `now` and `after` parameters.
- `Everything::sendSmartString`, Arduino `String` and the `F()` flash strings: a sent message is appended to `outbox` as a Dafny string.
- The `st::Sensor` base class, `getName()` and virtual dispatch: the name is a field of the class. The destructor does nothing and is not modelled.
- Configuration checks: the source checks neither the "presence" name prefix nor `shortThreshold <= longThreshold`, and the model does not either.
