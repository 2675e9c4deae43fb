# Valve controller web interface: configuration commands

A model of the configuration-command layer of a sixteen-channel solenoid
valve controller (a pulse-point training mannequin). The firmware keeps a
table of valve entries; three HTTP handlers read and write it:

- `POST /control` checks the channel id, turns a `state` flag into one call
  of the output driver (the channel's stored PWM value, or 0), and accepts a
  `bpm` inside `[MIN_BPM, MAX_BPM]`, which sets the heart rate, recomputes the
  beat interval `60000 / bpm` and switches the channel to the heart rhythm.
- `POST /set` checks the channel id and writes the fields the request
  carries, in the fixed order mode, pwmValue, heartRate (with the beat
  interval), manualPulseDuration, useDynamicPulse; a pwmValue is also sent to
  the driver when the channel is in manual PWM mode after the mode write.
- `GET /status` reports every entry, with the mode as the text
  `"MANUAL_PWM"` or `"HEART_RHYTHM"`.

Files:

- `wrappers.dfy`: `Option`, for request fields that are absent or of the wrong JSON type.
- `valve_mode.dfy`: the two modes and their text codec.
- `valves.dfy`: the valve entry, the beat interval as C's integer division, and the
  rate invariants (`RateConsistent`: the interval matches the rate; `RateValid`: also in range).
- `handlers.dfy`: the requests, and what each handler does to one entry and to the driver, as functions.
- `web_interface.dfy`: `ValveTable`, a class holding the table as an `array<Valve>` and a
  ghost log of driver calls, whose methods apply the handlers in place, field by field,
  in the source's order, and are proved against the functions of `handlers.dfy`.

`NUM_VALVES` is the array's length and `MIN_BPM`/`MAX_BPM` are constants of the
table with `0 < MIN_BPM <= MAX_BPM`; the firmware defines all three elsewhere.
`handleControl` ignores a `bpm` outside `[MIN_BPM, MAX_BPM]`
(WebInterface.h:485), and the dashboard only ever sends a `heartRate` from a
slider bounded 40..140 (WebInterface.h:264, WebInterface.h:401);
`handleSet` itself does not check the rate, and the model follows the code
(see Findings).

## Model

| member | source | states |
|---|---|---|
| `ValveMode.EncodeMode` | WebInterface.h:502 | the status text of a mode is one of the two canonical texts, and decoding it gives the mode back |
| `ValveMode.DecodeMode` | WebInterface.h:538 | a request's mode text selects manual PWM if and only if it is exactly "MANUAL_PWM"; any other text selects the heart rhythm |
| `ValveMode.EncodeDecode` | WebInterface.h:538 | decode then encode gives a text back exactly when it is one of the two canonical texts |
| `Valves.BeatInterval` | WebInterface.h:487 | for a positive rate the interval is the truncated quotient: `ms * rate <= 60000 < (ms + 1) * rate` |
| `Valves.BeatIntervalTruncates` | WebInterface.h:550 | for a negative rate the interval is the negated interval of the opposite rate, as C's truncating division gives |
| `Valves.BeatIntervalAntitone` | WebInterface.h:487 | a faster heart rate never yields a longer beat interval |
| `Valves.BeatIntervalBounds` | WebInterface.h:485-487 | an accepted bpm gives an interval between those of `MAX_BPM` and `MIN_BPM` |
| `Handlers.ControlCommands` | WebInterface.h:474-481 | one driver call exactly when a state flag is present, on the request's channel, with the stored PWM value for true and 0 for false |
| `Handlers.ApplyControl` | WebInterface.h:483-490 | an accepted bpm sets the heart rate, a matching beat interval and the heart-rhythm mode; otherwise the entry is unchanged; PWM value and pulse settings never change; the range invariant is preserved |
| `Handlers.ApplyControlIdempotent` | WebInterface.h:483-490 | repeating a /control request leaves the entry as after the first |
| `Handlers.SetCommands` | WebInterface.h:536-546 | a pwmValue is sent to the driver if and only if the request carries one and the mode after the request's own mode write is manual PWM |
| `Handlers.SetValve` | WebInterface.h:536-559 | a /set request that does not fault keeps the beat interval matching the heart rate |
| `Handlers.SetValveFields` | WebInterface.h:536-559 | every present field takes the request's value and every absent field keeps its value; a zero heart rate leaves the interval and the later fields unwritten |
| `Handlers.SetZeroHeartRateFaults` | WebInterface.h:548-551 | a heart rate of 0 passes every test of handleSet, is stored, and faults, leaving the interval stale |
| `Handlers.SetStoresRateOutOfRange` | WebInterface.h:548-551 | handleSet stores a heart rate above `MAX_BPM`, losing the range invariant |
| `Handlers.CheckRate` | WebInterface.h:485 | the corrected request never faults, carries only an in-range heart rate, and differs from the original only in that field |
| `Handlers.SetValveChecked` | WebInterface.h:548-551 | the corrected /set keeps the heart rate in range with a matching interval; it agrees with handleSet on an in-range rate, and for an absent or out-of-range rate it is handleSet without the rate, keeping the heart rate and beat interval |
| `Handlers.SetValveIdempotent` | WebInterface.h:536-559 | repeating a non-faulting /set request leaves the entry as after the first |
| `Handlers.ReportsUnique` | WebInterface.h:499-507 | each entry has exactly one status element |
| `Handlers.ReportsDetermineEntry` | WebInterface.h:500-506 | the status element determines the entry except for its beat interval |
| `Handlers.ControlThenStatus` | WebInterface.h:486-488 | after an accepted bpm the status reports "HEART_RHYTHM" and the new rate |
| `Handlers.SetThenStatus` | WebInterface.h:538 | after a /set naming a mode the status reports that mode's canonical text |
| `WebInterface.ValveTable.SetSolenoidDuty` | WebInterface.h:477-479 | a driver call appends exactly one command to the log |
| `WebInterface.ValveTable.HandleControl` | WebInterface.h:452-493 | 400 with nothing changed for invalid JSON or an id outside the table; keeps `Valid()`; otherwise 200, only the addressed entry changes, as `ApplyControl` says, the driver calls are `ControlCommands`, and both rate invariants of the whole table are preserved |
| `WebInterface.ValveTable.HandleStatus` | WebInterface.h:495-512 | one element per channel in channel order, each reporting its entry |
| `WebInterface.ValveTable.HandleSet` | WebInterface.h:514-562 | keeps `Valid()`; 400 with nothing changed for invalid JSON or a bad id; a division-by-zero stop exactly for a zero heart rate; otherwise only the addressed entry changes, as `SetValve` says, the driver calls are `SetCommands`, and a completed request keeps every interval matching its rate |
| `WebInterface.ValveTable.HandleSetChecked` | WebInterface.h:514-562 | the corrected /set always replies 200 or 400, keeps `Valid()`, changes only the addressed entry as `SetValveChecked` says, and keeps the range invariant of the whole table |
| `WebInterface.ValveTable.WriteMode` | WebInterface.h:536-539 | only the addressed entry's mode changes, to the decoded text when present |
| `WebInterface.ValveTable.WritePwmValue` | WebInterface.h:541-546 | stores the PWM value and sends it to the driver when the entry is in manual PWM mode |
| `WebInterface.ValveTable.WriteHeartRate` | WebInterface.h:548-551 | stores the rate and recomputes the interval, or reports the fault with the rate 0 stored |
| `WebInterface.ValveTable.WriteHeartRateChecked` | WebInterface.h:548-551 | stores an in-range rate with its interval and ignores any other |
| `WebInterface.ValveTable.WriteManualPulseDuration` | WebInterface.h:553-555 | only the addressed entry's pulse duration changes, when present |
| `WebInterface.ValveTable.WriteUseDynamicPulse` | WebInterface.h:557-559 | only the addressed entry's dynamic-pulse flag changes, when present |

## Left out

- Access-point setup, server start and `server.handleClient` (WebInterface.h:20-40): network I/O.
- The HTML, CSS and JavaScript dashboard served by `handleRoot` (WebInterface.h:42-450): user interface.
- JSON parsing and serialisation: a request arrives as an already-parsed record whose optional fields are those that passed their `is<T>()` test; ArduinoJson's coercions (a missing `id` reading as 0, which numbers `is<int>()` accepts) and the text of the status reply are not modelled.
- The 405 answers to a wrong HTTP method (WebInterface.h:453-456, WebInterface.h:515-518) and the reply bodies: transport; a reply is only its outcome.
- `setSolenoidDuty`, the `valves` table, `NUM_VALVES`, `MIN_BPM` and `MAX_BPM` are defined in files that are not part of this model: the driver is a ghost log of calls, the constants are parameters.
- Fields of a valve entry that these handlers do not touch, and the C widths of the touched ones: values are unbounded integers, stored as the request carries them.
- What a division by zero does on the device: it is undefined behaviour in C++; the model stops the handler at that point and sends no reply.
- The per-channel waveform and beat scheduler, reset and persistence: their source is not part of this model.

## Findings

| source | as written | input that shows it | evidently intended | confidence | as-written member | corrected member |
|---|---|---|---|---|---|---|
| WebInterface.h:548-551 | stores `heartRate` unchecked, then computes `60000 / heartRate` | `{"id":0,"heartRate":0}` | ignore a heart rate outside `[MIN_BPM, MAX_BPM]`, as handleControl does for `bpm` (WebInterface.h:485) | medium; not executed | `Handlers.SetZeroHeartRateFaults` | `Handlers.SetValveChecked` |
