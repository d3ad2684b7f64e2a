# iot-nest door controllers in Dafny

This project models the two MicroPython door-access controllers of iot-nest and proves properties of them.

- **Message-driven controller (`iott.py`, module `MessageDriven`).** An MQTT callback decodes `/`-separated commands (`access`, `noaccess`, `intrusion`, `status`, `reset`). It keeps a "valid access" flag and an "alarm already fired" flag. Each pass of the main loop first takes at most one inbound payload, then checks the door sensor. An unauthorised opening blinks the red LED and publishes `intrusion/door_opened_without_permission`.
- **Counter-driven controller (`iot.py`, module `CounterDriven`).** It has no authorisation messages. It reacts only to changes of the door sensor and counts openings. Odd-numbered openings are granted. Even-numbered openings are denied, reported on `fastapi/security` and alarmed with ten red blinks.

Both controllers are imperative in the source: module-level globals updated in place. Each is modelled as a Dafny `class Controller` whose fields are those globals. The LEDs are booleans, and every MQTT publish is appended to an `outbox` sequence. Each method is proved to leave the object in the state that a pure transition function gives (`AfterCommand`, `AfterCheck`, `AfterStep`, `AfterTick`, ...). Lemmas about those functions state what the controller promises.

Each `Controller` also keeps a ghost `effects` log. Every publish and every red-LED write of an alarm is appended to it at the moment it happens. Each method states what it appends (`AlarmTrace`, `StepTrace`, `TickTrace`), so the order of the alarm's report and its blinking is a proved property of the method bodies.

Two shared modules support them:

- `Text` models Python's `str.split(sep)` and `str.strip()`, as far as the decoder uses them.
- `Signals` holds an `Option` type, `Blinks` (the sequence of levels an alarm writes to the red LED) and `Effect`, one entry of the effect log.

The model follows the code as written, including these behaviours:

- `noaccess/...` does not clear `door_has_valid_access`; it only switches the LEDs (iott.py:75-79).
- `reset/...` does not clear the alarm flag. The assignment at iott.py:95 binds a local name, because the function declares only `door_has_valid_access` global.
- A bare `status` or `reset` with no `/` is rejected as malformed (iott.py:63, 100-101). It is not treated as the command.
- A grant is not checked against any lock identifier. `lock_id` is only echoed in the reply (iott.py:67, 73).
- Neither file debounces the sensor:
  - `iot.py` acts only when a reading differs from `DOOR_OPEN`.
  - `iott.py` re-evaluates the sensor level on every pass and relies on `alarm_triggered` to alarm only once.
- In `iot.py` the alarm report is `UNAUTHORIZED_ACCESS` on `fastapi/security`, and it is published before the blinking. After the alarm both LEDs are off (iot.py:69-90).
- In `iott.py` the intrusion report is published after the blinking (iott.py:127-133).
- The guard `if not ACCESS_GRANTED` at iot.py:123 is always true right after `deny_access`. `CounterDriven.Controller.Step` keeps it, and the proof shows it never skips the alarm.

## Model

| member | source | states |
|---|---|---|
| Text.Split | iott.py:61 | `split('/')` always yields at least one piece |
| Text.SplitPiecesFree | iott.py:61 | no piece of `split('/')` holds the separator |
| Text.SplitJoinsBack | iott.py:61 | joining the pieces of `split('/')` with the separator gives the payload back |
| Text.SplitLeadingSeparator | iott.py:61 | a leading separator splits off an empty first piece |
| Text.SplitJoin | iott.py:61 | splitting the join of separator-free parts gives exactly those parts back |
| Text.SplitSingleIff | iott.py:61-63 | a payload splits into a single piece exactly when it holds no `/` |
| Text.SplitAtFirst | iott.py:61 | splitting `head/tail` gives `head` followed by the pieces of `tail` |
| Text.SplitFirstPiece | iott.py:61 | the first piece runs up to the first separator |
| Text.Strip | iott.py:64 | `strip()` returns text with none of MicroPython's six whitespace characters (space, tab, newline, carriage return, vertical tab, form feed) at either end, never longer than its input |
| Text.StripPadded | iott.py:64-68 | stripping stripped text padded with whitespace on both sides gives exactly that text |
| Text.StripIdempotent | iott.py:64-68 | stripping twice is stripping once |
| Text.StripKeeps | iott.py:64-68 | stripping never introduces a character, so stripped fields stay free of `/` |
| Signals.BlinksAlternate | iott.py:127-131 | `n` blink cycles write `2n` levels alternating on, off, on, ... |
| Signals.BlinksCount | iot.py:84-88 | `n` cycles switch the LED on exactly `n` times and off `n` times, and leave it off |
| MessageDriven.Decode | iott.py:60-63 | a payload is rejected as malformed exactly when it has no `/` |
| MessageDriven.DecodeWellFormed | iott.py:61-99 | every decoded command carries ids free of `/` and of outer whitespace, and an unknown command word is none of the five known ones |
| MessageDriven.DecodeLeading | iott.py:61-64 | decoding `word/rest` dispatches on the stripped `word` with the pieces of `rest` as later fields |
| MessageDriven.DecodeKeyword | iott.py:64-66 | a command word that is already stripped is dispatched on as it stands |
| MessageDriven.DecodeGrantPayload | iott.py:66-68 | `access/<lock>/<user>`, with any further fields, decodes to a grant of the stripped lock and user ids |
| MessageDriven.DecodeRender | iott.py:59-101 | every well-formed command, written out as a payload, decodes back to itself |
| MessageDriven.DecodeGrantRender | iott.py:66-68 | `access/<lock>/<user>` decodes back to that grant |
| MessageDriven.DecodeDenyRender | iott.py:75-76 | `noaccess//<user>` decodes back to a denial of that user |
| MessageDriven.DecodeIntrusionRender | iott.py:81-82 | `intrusion/<info>` decodes back to that intrusion, its info unstripped |
| MessageDriven.DecodeUnknownRender | iott.py:98-99 | any other stripped command word followed by `/` decodes to that unknown command |
| MessageDriven.DecodeWordUnknown | iott.py:98-99 | a command word that is none of the five known ones selects the unknown-command branch |
| MessageDriven.DecodeBareRender | iott.py:66-90 | `status/`, `reset/` and `access/` decode to the status query, the reset and the missing-user case |
| MessageDriven.Reply | iott.py:73-96 | no command reply is the intrusion report, so only the alarm publishes that report |
| MessageDriven.AfterCommand | iott.py:63-101 | no command touches the alarm flag or the link, only a grant or a reset changes the access flag, and the outbox grows by the command's reply |
| MessageDriven.NoSeparatorChangesNothing | iott.py:100-101 | a payload without `/` leaves the whole state unchanged |
| MessageDriven.BareStatusAndResetIgnored | iott.py:86-96 | a bare `status` or `reset` does nothing and publishes nothing |
| MessageDriven.AccessGrants | iott.py:66-73 | `access/<lock>/<user>...` sets valid access, lights only green and publishes `access_granted/<user>/roomX/<lock>` with the stripped ids |
| MessageDriven.AccessWithoutUserIgnored | iott.py:66-70 | `access/<lock>` raises on the missing user before any state changes |
| MessageDriven.NoAccessKeepsAuthorization | iott.py:75-79 | `noaccess/...` lights only red and keeps the access flag and the outbox |
| MessageDriven.IntrusionLightsRed | iott.py:81-84 | `intrusion/...` lights only red and changes nothing else |
| MessageDriven.StatusAnswers | iott.py:86-88 | `status/...` only publishes `status_response/device_alive` |
| MessageDriven.ResetClears | iott.py:90-96 | `reset/...` clears access and both LEDs and acknowledges, but keeps the alarm flag |
| MessageDriven.ResetTwiceAsOnce | iott.py:90-96 | a second reset changes no flag or LED and only acknowledges again |
| MessageDriven.UnknownCommandIgnored | iott.py:98-99 | any other command word leaves the whole state unchanged |
| MessageDriven.MessageKeepsConsistent | iott.py:53-103 | no payload touches the alarm flag, and green lit implies valid access and the two LEDs are never lit together |
| MessageDriven.AlarmReportsAfterBlinking | iott.py:127-133 | the alarm's effects are `ticks` on/off writes to the red LED followed, only with a usable client, by the intrusion report |
| MessageDriven.AfterAlarm | iott.py:122-133 | the alarm sets the alarm flag and leaves access, green and the link alone |
| MessageDriven.AlarmOutboxFollowsTrace | iott.py:122-133 | what the alarm adds to the outbox is exactly the reports in its effect trace |
| MessageDriven.AfterCheck | iott.py:135-153 | after the door check access survives only an open door, and the alarm flag is set exactly when the door is open and the flag was set or access is not valid |
| MessageDriven.AfterStep | iott.py:165-172 | a pass keeps the link, leaves valid access only with the door open or without a client, and only appends to the outbox |
| MessageDriven.StepOutboxFollowsTrace | iott.py:165-172 | what a pass adds to the outbox is exactly the publishes of its effect trace, in order |
| MessageDriven.UnauthorisedOpeningAlarms | iott.py:139-141 | an open door without valid access or prior alarm fires the alarm, leaves red off after blinking and publishes the intrusion report |
| MessageDriven.AuthorisedOpeningQuiet | iott.py:139-143 | with valid access an open door changes nothing |
| MessageDriven.ClosedCheckIdempotent | iott.py:143-153 | a closed door clears both flags and both LEDs without publishing, and a second check changes nothing |
| MessageDriven.ClosedStepWipesGrant | iott.py:165-168 | a grant taken in a pass whose sensor reads closed does not survive the pass |
| MessageDriven.StepKeepsConsistent | iott.py:165-172 | every pass of the main loop keeps the LED invariant |
| MessageDriven.HeldOpenAlarmsAtMostOnce | iott.py:132-141 | while the door stays open the intrusion report is published at most once, whatever messages arrive, and not at all if the alarm already fired |
| MessageDriven.Controller.constructor | iott.py:156-161 | start-up: both flags false, both LEDs off, nothing published |
| MessageDriven.Controller.Publish | iott.py:43-51 | appends the payload to the outbox and logs its publish exactly when the client is usable, and changes nothing else |
| MessageDriven.Controller.OnMessage | iott.py:53-103 | handling a payload in place leaves the state that decoding and applying the command gives, logs only the command's reply, and keeps the LED invariant |
| MessageDriven.Controller.Dispatch | iott.py:66-99 | the branch on the command word ends in the state of the decoded command and logs only its reply, with the missing-user case changing nothing |
| MessageDriven.Controller.BlinkRed | iott.py:126-130 | the blink loop changes only the red LED, logs each write as it makes it, on then off once per cycle, and leaves red off after at least one cycle |
| MessageDriven.Controller.TriggerAlarm | iott.py:122-133 | sets the alarm flag, and the effects it logs are `AlarmTrace`: every LED write of `ticks` blink cycles, then the intrusion report |
| MessageDriven.Controller.CheckDoor | iott.py:135-153 | the door check in place matches `AfterCheck`, logs the alarm's effects exactly when the alarm fires, and keeps the LED invariant |
| MessageDriven.Controller.Step | iott.py:165-172 | one pass matches `AfterStep` and logs `StepTrace`: nothing without a client, otherwise the message's reply before the door check's alarm effects |
| CounterDriven.Boot | iot.py:93-105 | start-up state: red lit, green off, nothing counted or published, and the loop invariant holds |
| CounterDriven.AfterGrant | iot.py:61-67 | a grant lights green alone, sets access and announces `ACCESS_GRANTED` on `fastapi/access` when there is a client |
| CounterDriven.AfterDeny | iot.py:69-75 | a denial lights red alone, clears access and announces `ACCESS_DENIED` on `fastapi/access` when there is a client |
| CounterDriven.AlarmReportsBeforeBlinking | iot.py:77-90 | the alarm's effects are the `UNAUTHORIZED_ACCESS` report, only with a client, followed by ten on/off writes to the red LED |
| CounterDriven.AfterAlarm | iot.py:77-90 | after the alarm it is inactive, red is off, and access, green, the door flag and the counter are untouched |
| CounterDriven.AlarmOutboxFollowsTrace | iot.py:77-90 | what the alarm adds to the outbox is exactly the reports in its effect trace |
| CounterDriven.AfterTick | iot.py:107-141 | after a pass `DOOR_OPEN` equals the reading, the counter grows by one exactly on an opening, the client survives only if reachable, and the outbox is only appended to |
| CounterDriven.TickOutboxFollowsTrace | iot.py:107-141 | what a pass adds to the outbox is exactly the publishes of its effect trace, in order |
| CounterDriven.SteadyReadingChangesNothing | iot.py:109-131 | a reading equal to `DOOR_OPEN` changes no flag, counter, LED or outbox |
| CounterDriven.OpeningDecides | iot.py:111-124 | an opening increments the counter, is granted with green exactly on odd counts, leaves red off, and publishes a grant, or a denial followed by the alarm report |
| CounterDriven.ClosingClears | iot.py:126-131 | a closing clears access and both LEDs and publishes nothing |
| CounterDriven.OfflineTickSilent | iot.py:133-139 | without a client a pass publishes nothing and no client reappears |
| CounterDriven.TickKeepsInvariant | iot.py:107-141 | every pass keeps: access granted iff the door is open after an odd opening, green iff access, red only before the first opening, no alarm running |
| CounterDriven.InvariantSafe | iot.py:107-131 | at every loop boundary the two LEDs are not both lit, and granted access implies an open door |
| CounterDriven.RunCountsOpenings | iot.py:105-117 | over any run, `access_counter` grows by exactly the number of closed-to-open transitions, and `DOOR_OPEN` equals the last reading |
| CounterDriven.RunKeepsInvariant | iot.py:107-141 | the loop invariant holds after any number of passes |
| CounterDriven.OfflineRunSilent | iot.py:133-139 | once `connect_mqtt` has returned None, nothing is ever published again |
| CounterDriven.FirstOpeningGranted | iot.py:111-118 | from start-up the first opening is granted with only green lit and one `ACCESS_GRANTED` report |
| CounterDriven.SecondOpeningAlarmed | iot.py:111-131 | from start-up, after a first opening and a closing, the second opening is denied with one alarm report, and both LEDs end off |
| CounterDriven.Controller.constructor | iot.py:93-105 | the start of `main` leaves the boot state, which satisfies the invariant |
| CounterDriven.Controller.Send | iot.py:53-58 | appends the topic and message and logs the publish exactly when there is a client, and changes nothing else |
| CounterDriven.Controller.GrantAccess | iot.py:61-67 | sets access, lights only green, and publishes and logs only `ACCESS_GRANTED` |
| CounterDriven.Controller.DenyAccess | iot.py:69-75 | clears access, lights only red, and publishes and logs only `ACCESS_DENIED` |
| CounterDriven.Controller.BlinkRed | iot.py:84-88 | the blink loop changes only the red LED, logs each write as it makes it, on then off once per cycle, and leaves red off after at least one cycle |
| CounterDriven.Controller.TriggerAlarm | iot.py:77-90 | the effects it logs are `AlarmTrace`: the report, then the ten blink cycles; it ends with the alarm inactive and red off |
| CounterDriven.Controller.Step | iot.py:107-141 | one pass in place matches `AfterTick`, keeps the loop invariant, and logs `TickTrace`: on an opening the grant, or the denial followed by the alarm's effects, and nothing otherwise |

## Left out

- WiFi bring-up (`connect_wifi` in both files) is hardware and network set-up. The model starts after it.
- MQTT session handling is not modelled. This covers `subscribe_mqtt`, `connect_mqtt`, the `MQTTClient` construction and the topic filter. Whether a usable client exists is the `connected` flag, and each `publish` is an outbox entry. A publish that raises on a client that is otherwise usable is not modelled.
- `check_msg` delivers at most one payload per pass, modelled as an optional input to `Step`. The MQTT topic passed to `mqtt_callback` is ignored, as in the source.
- MessageDriven.Controller.Step: the client's usability never changes during a run. `iott.py` never reconnects, and a link that drops mid-run is not modelled.
- MessageDriven.Controller.TriggerAlarm: the wall-clock window of iott.py:125-127 becomes the parameter `ticks`, the number of blink cycles the clock allows. The sleeps are dropped.
- The 0.1 s and 2 s sleeps of the main loops and the loops themselves are not modelled. A pass is one `Step`, and a run is a sequence of passes (`Run`).
- UTF-8 decoding of the payload (iott.py:60) is not modelled. Payloads are strings, and an undecodable payload, which the callback's handler swallows, has no counterpart.
- `print` output is not modelled.
- GPIO: LEDs are booleans and sensor readings are inputs. The `effects` log records publishes and the alarm's red-LED writes. The other LED writes appear only in the state each method ends in.
- `str.strip()` removes the six characters MicroPython treats as whitespace when `strip` gets no argument. Other Unicode whitespace is kept, as on that runtime.
- Exceptions in the main loop of `iott.py` (iott.py:170-172) are modelled only for the missing client. The decoder raises nothing else the model can reach.
- CounterDriven.OpeningDecides: does not state the alarm flag after an opening. A grant leaves it as it was; `TickKeepsInvariant` shows it is false at every loop boundary.
