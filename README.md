# Happy-Fish light controller — a Dafny model

Happy-Fish drives the lights of an aquarium installation of 3 racks (A, B, C) with
3 shelves each (A1 … C3). Every shelf has a white LED strip. Every rack has an RGB
fixture, which shares the physical slot of the rack's third shelf. The desired
state of the lights lives as retained MQTT messages under a per-user root topic.
The controller keeps an in-memory store of that state in step with the broker. It
refuses commands that would break the sharing rules, and on every tick it writes
PWM duty cycles that combine the store with a sunrise/sunset schedule.

The model has six modules, one file each:

- `pytext.dfy` (`PyText`): the Python text built-ins the controller relies on. These are
  `int()` of a string (including the white space it ignores around the numeral),
  `str()` of an int or bool, `str.split` on one character and slicing with clamped
  bounds. They are modelled once so the other modules can state their error cases
  exactly.
- `settings.dfy` (`SettingsStore`): `settings.py`. The store's two dictionaries are
  values (`Snapshot`). Invariants I1 (no override ⇒ brightness 0), I2 (RGB override ⇒
  shelf X3 is `[False, 0]`) and I3 (no RGB override ⇒ colour `(0,0,0)`) are
  predicates. Each setter is a pure function proved to touch only its own field.
  `class Settings` makes the same changes in place and is proved against those
  functions.
- `topics.dfy` (`Topics`): the topic and payload handling of `connection.py`.
  - `format` undoes `str(bytes)`.
  - A topic is cut into levels below the root, with `/` as the level separator of
    section 4.7.1 of MQTT 3.1.1.
  - Each `publish_*` call becomes a retained publication record (section 3.3.1.3 of
    MQTT 3.1.1), proved to read back as the levels and text it was built from.
- `connection.dfy` (`Connections`): the rest of `connection.py`.
  - The stage machine and the retained replay into the dummy store.
  - `fix_conflicts`, specified by `Reconcile` and proved to restore I1–I3, to be
    idempotent and to make each correction once.
  - The live command handlers, each given by a function from store to (new store,
    publications).
  - The commit tail of the colour listener thread, and the reconnect back-off.
  - `class Connection` holds the stage, the flags, the publish log and the two
    stores. Its methods are proved against those functions.
- `day.dfy` (`DayCycle`): `day.py` as functions of one clock reading (hour, minute,
  second). Proved: range 0..4095, the phases of the configured day, checkpoints,
  monotone ramps, and that the two ramps never overlap.
- `electronics.dfy` (`ElectronicsOutput`): the output rule of `electronics.py`,
  deciding which duty each LED pin and RGB channel gets. The pin maps are constants,
  shown to be distinct. `updateModule` is a method that logs one write per pin or
  channel and returns `False` when a write raises.

Notes on the code's behaviour:

- The night test uses `getMinutesSince(sunset + duration) >= 0`, so night begins at
  sunset + 30 minutes.
- Duty values are truncated toward zero with `int()`.
- `established` puts the stage back to `Ignore` while `fix_conflicts` runs.
- The snapshot is copied with `dict.copy()`. The model treats that copy as a value
  (see Left out).
- Brightness values have no range check.
- A colour text that fails to parse part-way leaves the channels already written
  in place.

## Model

| member | source | states |
|---|---|---|
| `PyText.Split` | connection.py:170 | `split('/')` gives at least one piece, no piece holds the separator, and joining the pieces with it gives back the text |
| `PyText.ParseInt` | settings.py:54 | `int()` of a string: the empty text is the ValueError |
| `PyText.ParseIntBlank` | settings.py:54 | `int()` of a text made only of white space is the ValueError |
| `PyText.ParseIntToString` | connection.py:204 | `int(str(n)) == n`: every numeral the controller publishes reads back as the same number |
| `PyText.ParseIntPadded` | settings.py:54 | `int()` ignores white space around the numeral |
| `SettingsStore.InitialConsistent` | settings.py:18-34 | a fresh store has the nine shelves at `[False, 0]` and the three racks at `[False, [0,0,0], 'RGBA(0,0,0, 255)']`, so I1, I2 and I3 hold |
| `SettingsStore.Settings.constructor` | settings.py:18-34 | the constructed object's dictionaries are exactly that initial store |
| `SettingsStore.SetLedControl` | settings.py:47-50 | `led_control` on the store: the shelves keep their keys and `rgbs` is untouched |
| `SettingsStore.LedControlEffect` | settings.py:47-50 | `led_control` stores True iff the text is `'True'` and changes nothing but `leds[shelf][0]` |
| `SettingsStore.Settings.LedControl` | settings.py:47-50 | in place: a missing shelf is the KeyError path and leaves the store unchanged; otherwise the store becomes `SetLedControl` of the old one |
| `SettingsStore.SetLedBrightness` | settings.py:52-55 | `led_brightness` on the store: the shelves keep their keys and `rgbs` is untouched |
| `SettingsStore.LedBrightnessEffect` | settings.py:52-55 | `led_brightness` stores the value as given, with no range check, and changes nothing but `leds[shelf][1]` |
| `SettingsStore.Settings.LedBrightness` | settings.py:52-55 | in place, with the KeyError path, the store becomes `SetLedBrightness` of the old one |
| `SettingsStore.SetRgbControl` | settings.py:57-60 | `rgb_control` on the store: the racks keep their keys and `leds` is untouched |
| `SettingsStore.RgbControlEffect` | settings.py:57-60 | `rgb_control` stores True iff the text is `'True'` and keeps the rack's colour and text and every other entry |
| `SettingsStore.Settings.RgbControl` | settings.py:57-60 | in place, with the KeyError path, the store becomes `SetRgbControl` of the old one |
| `SettingsStore.WithColor` | settings.py:62-68 | the rack entry after `rgb_color`'s channel-by-channel writes keeps its override |
| `SettingsStore.SetRgbColor` | settings.py:62-68 | `rgb_color` on the store changes no override, no shelf and no other rack |
| `SettingsStore.ColorTextParses` | settings.py:62-68 | for `'RGBA(r,g,b,alpha)'` with decimal channels the parse completes and stores `[r,g,b]` and the text verbatim, whatever alpha is |
| `SettingsStore.RgbColorEffect` | settings.py:62-68 | on such a text `rgb_color` changes only that rack's colour and text; override and every other entry are kept |
| `SettingsStore.DefaultColor` | settings.py:62-68 | `rgb_color('RGBA(0,0,0, 255)')` parses and yields the default triple `[0,0,0]` |
| `SettingsStore.RgbColorBadSecond` | settings.py:64-66 | a non-numeric second channel raises after red is overwritten: the new red is kept, green, blue and text stay old, and the parse counts as failed |
| `SettingsStore.RgbColorBadThird` | settings.py:64-68 | a non-numeric third channel raises after red and green are overwritten; blue and text stay old |
| `SettingsStore.RgbColorShort` | settings.py:64-65 | a text of at most 6 characters has no number to parse and writes nothing |
| `SettingsStore.Settings.RgbColor` | settings.py:62-68 | in place: succeeds iff the rack exists and all three channels parse, and leaves exactly the partial writes of `WithColor` |
| `SettingsStore.ForcedDark` | settings.py:39-44 | `turnAllOff` keeps every shelf and rack key; its effect is stated by `ForcedDarkEffect` |
| `SettingsStore.ForcedDarkEffect` | settings.py:39-44 | `turnAllOff` puts every shelf at `[True, 0]` and every rack override at False, keeps colours and texts, leaves I1 and I2 holding whatever the store was, and is idempotent |
| `SettingsStore.Settings.TurnAllOff` | settings.py:39-44 | the in-place loops leave the store equal to `ForcedDark` of the old one |
| `SettingsStore.Settings.DarkenShelves` | settings.py:40-42 | after the shelf loop every shelf is `[True, 0]` and the racks are untouched |
| `SettingsStore.Settings.ReleaseRacks` | settings.py:43-44 | after the rack loop every override is False, colours and texts are kept, and the shelves are untouched |
| `Topics.FormatRepr` | connection.py:217-218 | `format("b'" + p + "'") == p` |
| `Topics.Text` | connection.py:171 | the text a handler works with, `format(str(payload))`, is the payload itself |
| `Topics.Root` | connection.py:38-39 | the root is `'/' + email + '/'`, two characters longer than the e-mail |
| `Topics.LevelsOfPath` | connection.py:170 | `root + a/b/c` splits back into exactly `[a, b, c]` when no level holds `/` |
| `Topics.LedControlPublish` | connection.py:339-341 | the publication goes under `<root>led/control/<shelf>` with qos 0 and retain set, and its payload is `'True'` iff control |
| `Topics.LedBrightnessPublish` | connection.py:343-345 | the publication goes under `<root>led/brightness/<shelf>`, retained, with a payload that `int()` reads back as the value |
| `Topics.RgbControlPublish` | connection.py:347-349 | the publication goes under `<root>rgb/control/<rack>`, retained, with payload `'True'` iff control |
| `Topics.RgbColorPublish` | connection.py:351-353 | the publication goes under `<root>rgb/color/<rack>`, retained, with the colour text as payload |
| `Topics.PublishReadsBack` | connection.py:339-353 | every publication lies under the root, so `root#` matches it, and reads back as its three levels and its payload |
| `Connections.ApplyRetained` | connection.py:166-187 | a retained message, routed or dropped, never adds or removes a shelf or rack |
| `Connections.RetainedNeedsThreeLevels` | connection.py:166-183 | in Retained, a topic without exactly three levels below the root leaves the dummy store unchanged |
| `Connections.ListenNeedsThreeLevels` | connection.py:189-211 | in Listening, such a topic is routed to no handler |
| `Connections.Connection.OnMessage` | connection.py:155-161 | Ignore changes no store, no log and no field; Retained changes only the dummy store (by `ApplyRetained`) and publishes nothing; Listening applies `Listen` to the live store and appends its publications |
| `Connections.Connection.OnRetained` | connection.py:166-187 | the dummy store becomes `ApplyRetained` of the old one; parse errors are caught with the setter's partial effect |
| `Connections.Connection.OnListening` | connection.py:189-215 | the live store and log move as `Listen` of the routed request says, and the colour bookkeeping as `ListenTracking` |
| `Connections.Connection.OnLedCommand` | connection.py:198-204 | led/reset, led/control and led/brightness reach their handlers; a brightness that `int()` rejects reaches none |
| `Connections.Connection.OnRgbCommand` | connection.py:205-211 | rgb/reset, rgb/control and rgb/color reach their handlers |
| `Connections.FixRack` | connection.py:221-234 | one rack's repair keeps the store well formed; what it repairs is stated by `FixRackApplies` and `FixRackSettles` |
| `Connections.FixShelf` | connection.py:236-240 | one shelf's repair keeps the store well formed |
| `Connections.Reconcile` | connection.py:220-240 | `fix_conflicts`, racks first and shelves second, keeps the store well formed |
| `Connections.ReconcileApplies` | connection.py:220-240 | `fix_conflicts` changes the dummy store exactly by applying, in order, the corrections it publishes, all on installation keys |
| `Connections.ReconcileConsistent` | connection.py:220-240 | after `fix_conflicts` the dummy store satisfies I1, I2 and I3, whatever the replay left in it |
| `Connections.ReconcileQuiet` | connection.py:220-240 | `fix_conflicts` publishes nothing iff the store already satisfies I1–I3, and then changes nothing |
| `Connections.ReconcileIdempotent` | connection.py:220-240 | a second `fix_conflicts` publishes nothing and changes nothing |
| `Connections.ReconcileOnce` | connection.py:220-240 | every correction was needed when it was made, and no correction is made twice |
| `Connections.ReconcileReplayIsQuiet` | connection.py:220-240 | replaying any of the published corrections as a retained message leaves the repaired store unchanged |
| `Connections.Connection.FixConflicts` | connection.py:220-240 | the in-place loops leave the dummy store equal to `Reconcile(old).store` and append exactly its publications to the log |
| `Connections.Connection.FixRacksInPlace` | connection.py:221-234 | the rack loop in place matches `FixRacks` over all three racks |
| `Connections.Connection.FixShelvesInPlace` | connection.py:236-240 | the shelf loop in place matches `FixShelves` over all nine shelves |
| `Connections.Connection.FixRackInPlace` | connection.py:222-234 | one rack: a rack with override clears its shared shelf, and one without has a non-black colour reset |
| `Connections.Connection.ClearSharedShelf` | connection.py:223-229 | the shared shelf is switched off if on, then zeroed if nonzero; each step is published, then applied |
| `Connections.Connection.FixShelfInPlace` | connection.py:237-240 | a shelf without override and with nonzero brightness is zeroed, published first |
| `Connections.Connection.Correct` | connection.py:225-234 | one correction is appended to the log once and applied to the dummy store once |
| `Connections.Connection.Establish` | connection.py:93-105 | the stage becomes Retained with a fresh dummy store in its initial state |
| `Connections.Connection.GoLive` | connection.py:108-124 | the stage ends as Listening, and the live and dummy dictionaries both equal the post-fix dummy store |
| `Connections.Connection.Established` | connection.py:93-124 | after replaying the retained messages and fixing them, the live store is `Reconcile(Replay(initial, messages)).store`; its corrections are published |
| `Connections.Connection.ReplayRetained` | connection.py:155-183 | retained messages delivered in Retained change only the dummy store, which becomes their in-order replay |
| `Connections.Listen` | connection.py:189-215 | a live command never adds or removes a key; only rgb/control changes `rgbs`; the two resets and a colour request leave the store as it was |
| `Connections.LedResetRestores` | connection.py:244-247 | `led_reset` changes no store and publishes exactly two messages, which, read back, put the shelf at `[False, 0]` |
| `Connections.Connection.LedReset` | connection.py:244-247 | appends control False and brightness 0 for the shelf |
| `Connections.LedControlReply` | connection.py:249-268 | `led_control` never touches `rgbs` and changes no shelf but the commanded one |
| `Connections.LedControlKeepsInvariants` | connection.py:249-268 | `led_control` never touches `rgbs`, keeps I1 on every shelf, and keeps I1–I3 together |
| `Connections.LedControlOff` | connection.py:263-268 | `led_control(s, False)` ends with `s` at `[False, 0]`, publishes brightness 0 only if it was nonzero, and changes no other entry |
| `Connections.LedControlRefused` | connection.py:252-258 | switching on shelf X3 while rack X has RGB override leaves the store unchanged and publishes exactly one control-False correction |
| `Connections.LedControlAccepted` | connection.py:252-262 | switching on a shelf that is not a third shelf is accepted whatever the racks say, and publishes nothing |
| `Connections.Connection.LedControl` | connection.py:249-268 | the live store and log move as `LedControlReply` says |
| `Connections.LedBrightnessReply` | connection.py:270-278 | `led_brightness` never touches `rgbs`, changes no override and no shelf but the commanded one |
| `Connections.LedBrightnessKeepsInvariants` | connection.py:270-278 | `led_brightness` never touches `rgbs`, keeps I1, and keeps I1–I3 together |
| `Connections.LedBrightnessRefused` | connection.py:270-276 | a nonzero brightness for a shelf without override leaves the store unchanged and publishes exactly one brightness-0 correction |
| `Connections.Connection.LedBrightness` | connection.py:270-278 | the live store and log move as `LedBrightnessReply` says |
| `Connections.RgbResetRestores` | connection.py:280-283 | `rgb_reset` changes no store and publishes exactly two messages, which, read back, put the rack at override False with the default colour |
| `Connections.Connection.RgbReset` | connection.py:280-283 | appends control False and the default colour for the rack |
| `Connections.RgbControlReply` | connection.py:285-297 | `rgb_control` never writes a shelf or a colour, and changes no rack but the commanded one |
| `Connections.RgbControlEffect` | connection.py:285-297 | `rgb_control` stores the requested override unconditionally and never changes `leds`. Switching on publishes an `led_reset` pair only if X3 is on. Switching off publishes the default colour only if the colour is not black |
| `Connections.Connection.RgbControl` | connection.py:285-297 | the live store and log move as `RgbControlReply` says |
| `Connections.ListenKeepsConsistent` | connection.py:189-211 | every live command except rgb/control keeps I1, I2 and I3 of a consistent store |
| `Connections.ColorRequest` | connection.py:299-312 | a running listener is never replaced, and any change records `rack/colour` as `last_color` with a listener running |
| `Connections.ColorRequestIgnored` | connection.py:299-304 | a colour equal to the rack's stored text, or one for an unknown rack, changes nothing |
| `Connections.ColorRequestTracks` | connection.py:306-312 | otherwise `last_color` is `rack/colour`, so `last_color[2:]` is the colour. A listener is running afterwards, and a newly started one is for this rack |
| `Connections.Connection.RgbColor` | connection.py:299-312 | the colour bookkeeping moves as `ColorRequest` says, and the store is untouched |
| `Connections.CommitReply` | connection.py:330-337 | the commit never writes a shelf or an override, and changes no rack but its own |
| `Connections.CommitEffect` | connection.py:330-337 | the commit stores the default colour, and publishes it, when the rack has no override and the colour is not the default; otherwise it stores the requested colour. Only that rack's colour and text can change |
| `Connections.CommitKeepsConsistent` | connection.py:330-337 | the commit keeps I1, I2 and I3 of a consistent store |
| `Connections.CommitOfRequest` | connection.py:306-337 | the commit of the `rack/colour` value a request leaves in `last_color` (see `ColorRequestTracks`) stores the requested colour on a rack with override, and the default colour on any rack, with no publication |
| `Connections.Connection.RgbColorCommit` | connection.py:328-337 | clears `currently_listening`; the live store and log move as `CommitReply` says |
| `Connections.Connection.constructor` | connection.py:21-52 | the stage is Ignore, the flags are clear, the log is empty, the root is `'/' + email + '/'`, and the reconnect delay is the caller's |
| `Connections.Connection.OnConnect` | connection.py:131-145 | rc 0 sets established and resets the delay to 60; any other rc sets failed and doubles the delay |
| `Connections.Connection.OnDisconnect` | connection.py:147-153 | marks the connection closed, records the disconnect time, and doubles the delay |
| `Connections.NextDelay` | connection.py:131-153 | rc 0 resets the delay to 60, a refused connection or a disconnect doubles it, so it never drops below 60 once there |
| `Connections.BackoffDoubles` | connection.py:143-149 | n failures in a row multiply the delay by 2^n |
| `Connections.BackoffResets` | connection.py:131-153 | after a success, the delay is 60 doubled once per later failure, whatever came before |
| `Connections.BackoffExample` | connection.py:131-153 | from 60, three failures give 480, and a success then returns it to 60 |
| `DayCycle.MinutesSince` | day.py:60-61 | for a valid clock the minutes since `m` lie in `-m .. 1439 - m`; no wrap past midnight |
| `DayCycle.IsSunrise` | day.py:23-26 | sunrise is the half-open window of 30 minutes, to the second, starting at the sunrise minute |
| `DayCycle.IsSunset` | day.py:28-31 | sunset is the half-open window of 30 minutes, to the second, starting at the sunset minute |
| `DayCycle.IndexOf` | day.py:17 | `str.index(':')` is the first occurrence, or the ValueError when there is none |
| `DayCycle.ParseClock` | day.py:17-21 | a time with no `:` is the ValueError of `str.index` |
| `DayCycle.ParseClockOf` | day.py:17-21 | `'H:MM'` reads as H*60 + MM |
| `DayCycle.ConfiguredDay` | day.py:16-21 | the configured times give sunrise 420 and sunset 1140 |
| `DayCycle.ScaleBrightness` | day.py:57-58 | the result r is the floor of b*4095/high: `r*high <= b*4095 < (r+1)*high` for b ≥ 0 |
| `DayCycle.GetBrightness` | day.py:37-55 | outside the ramps the duty is 0 or 4095; in sunrise it is the elapsed fraction of 1800 seconds out of 4095, rounded down; in sunset 4095 less that |
| `DayCycle.BrightnessInRange` | day.py:37-55 | for every clock second in 0..59 the duty is in 0..4095. It stays below 4095 during sunrise and above 0 during sunset |
| `DayCycle.RampBelowMax` | day.py:41-43 | inside the sunrise window the ramp value stays in 0..4094 |
| `DayCycle.ScaleMonotone` | day.py:57-58 | `scaleBrightness` never decreases as its argument grows |
| `DayCycle.SunriseMonotone` | day.py:41-43 | the duty never decreases through the sunrise window |
| `DayCycle.SunsetAntitone` | day.py:46-48 | the duty never increases through the sunset window |
| `DayCycle.ConfiguredPhases` | day.py:37-55 | configured day: 0 before 07:00, sunrise ramp to 07:30, 4095 to 19:00, `4095 − ramp` to 19:30, then 0 |
| `DayCycle.ConfiguredRampsApart` | day.py:23-31 | with the configured times, `isSunrise` and `isSunset` are never both true |
| `DayCycle.ConfiguredCheckpoints` | day.py:37-55 | the duty is 0 at 06:59:59 and 07:00:00, 2047 at 07:15:00, 4095 at 07:30:00 and 19:00:00, and 0 at 19:30:00 |
| `ElectronicsOutput.Trunc` | electronics.py:108 | `int()` of a number truncates toward zero: within 1 of it, on the zero side |
| `ElectronicsOutput.GetBrightness` | electronics.py:147-162 | scale 0 is the ZeroDivisionError. For 0 ≤ x ≤ scale the result is in 0..4095, 0 at x = 0 and 4095 at x = scale |
| `ElectronicsOutput.LedDuty` | electronics.py:105-122 | every branch gives a duty in 0..4095 for a percentage in 0..1 and a brightness in 0..100 |
| `ElectronicsOutput.OverrideShelfDuty` | electronics.py:106-108 | an override shelf gets its manual brightness (out of 100) scaled by the percentage. That is 0 for brightness 0, within 0..4095, and 4095 at full brightness and schedule |
| `ElectronicsOutput.SharedShelfDark` | electronics.py:111-114 | a non-override X3 shelf whose rack X has RGB override gets 0, whatever the schedule |
| `ElectronicsOutput.ScheduledShelfDuty` | electronics.py:115-122 | every other non-override shelf gets `int(percentage*4095)`, in 0..4095 |
| `ElectronicsOutput.RgbDuties` | electronics.py:127-138 | a rack's duties are three, red, green and blue; what they carry is stated by `RgbChannelDuties` |
| `ElectronicsOutput.RgbChannelDuties` | electronics.py:128-138 | a rack's channels carry its colour out of 255 iff override is on and the stage is neither pre-sunrise nor post-sunset; otherwise all three get 0 |
| `ElectronicsOutput.ForcedDarkOutputs` | electronics.py:103-138 | in the state `turnAllOff` leaves, every LED pin and every RGB channel is written 0 |
| `ElectronicsOutput.LedPinsDistinct` | electronics.py:53-63 | `led_pins` maps the nine shelves to nine distinct channels |
| `ElectronicsOutput.RgbPinsDistinct` | electronics.py:65-69 | `rgb_pins` gives each rack three channels, and no channel appears twice |
| `ElectronicsOutput.LedPlanInRange` | electronics.py:103-122 | every LED write of a refresh has on-time 0 and, for a percentage in 0..1 and brightnesses in 0..100, a duty in 0..4095 |
| `ElectronicsOutput.RgbPlanDark` | electronics.py:125-138 | before sunrise and after sunset every RGB write of a refresh is 0 |
| `ElectronicsOutput.LedPlan` | electronics.py:103-122 | one write per shelf, nine in all |
| `ElectronicsOutput.LedPlanOncePerPin` | electronics.py:103-122 | one refresh writes each of the nine LED pins exactly once, in the order of `led_pins` |
| `ElectronicsOutput.RgbPlan` | electronics.py:125-138 | three writes per rack, nine in all |
| `ElectronicsOutput.RgbPlanOncePerChannel` | electronics.py:125-138 | one refresh writes each of the nine RGB channels exactly once, rack by rack |
| `ElectronicsOutput.RgbPlanPrefix` | electronics.py:125-138 | the writes for the first j racks begin the refresh's RGB writes |
| `ElectronicsOutput.Electronics.UpdateModule` | electronics.py:97-145 | returns True iff no write raised. The two modules receive exactly the planned writes, up to the one that raises |
| `ElectronicsOutput.Electronics.UpdateLeds` | electronics.py:103-122 | the shelf loop writes the LED plan in order and stops at the write that raises |
| `ElectronicsOutput.Electronics.UpdateRgbs` | electronics.py:125-138 | the rack loop writes the RGB plan of the current settings in order and stops at the write that raises |
| `ElectronicsOutput.Electronics.UpdateRacks` | electronics.py:125-138 | over a given store, the rack loop's writes are the RGB plan up to the write that raises, and it reports True iff none did |
| `ElectronicsOutput.Electronics.UpdateRack` | electronics.py:128-138 | a rack's three channel writes, red, green, blue, up to the one that raises |

## Left out

- The MQTT client and its transport are out: `mqtt.Client`, `connect`, `loop_start`, `subscribe`, `disconnect` and `end` (connection.py:26-31, 66-67, 105, 126-129). Publications are appended to a log, and the broker's echo of them is not fed back.
- The connect thread, its one-second polling loop and its 10-second timeout (connection.py:56-91) are out. They are timing and concurrency. `Establish` and `GoLive` are the two halves of `established`, and the retained messages are delivered between them.
- The `sleep` calls in `established`, `antiTimeout` and `antiInterference` (connection.py:107, 115, 355-359) are pure delays and are left out.
- The debounce loop of `rgb_color_thread` (connection.py:314-326) is out. It reads `time()` and an unsynchronised shared `last_color`. `RgbColorCommit` takes the final `tracking` value as a parameter; starting the thread is recorded as the `worker` field.
- A message arriving between the switch to Listening and the copy of the dummy dictionaries (connection.py:119-121) is not modelled: the two steps are one step.
- Connections.Connection.GoLive: the shallow `dict.copy()` of connection.py:120-121 shares the inner lists between the two stores. The copy is modelled as a value copy, because the dummy store is never written again afterwards.
- The reconnect delay belongs to the caller's object (connection.py:136, 143, 149). It is a field of `Connection` whose initial value is a constructor parameter, because the process wiring never sets one.
- Process wiring is not part of this model (happy_fish.py): logging setup, environment variables, the main loop, the reconnect `Timer` and its retry ceiling. The same holds for the alert notifier (alerts.py) and all logging and `printConfig` calls.
- The disconnect timestamp of `on_disconnect` (connection.py:151) is a caller-supplied parameter, not a clock read.
- PyText.ParseInt: `int()` is modelled for ASCII digits, an optional sign and Python's white space. Underscore separators and non-ASCII decimal digits are not modelled.
- Topics.BytesRepr: `str(payload)` is modelled as `"b'" + payload + "'"`. Payloads that Python's bytes repr escapes (quotes, backslashes, non-printable or non-ASCII bytes) are not modelled.
- DayCycle.ScaleBrightness: computes the floor of the exact quotient b*4095/high. Python's float product can round to just below an exact integer and truncate one lower; that case is not modelled.
- The `datetime.now()` reads in `day.py` (day.py:24, 29, 38) are out. The schedule takes one clock reading (hour, minute, second) as a parameter, rather than three separate reads.
- ElectronicsOutput.GetBrightness: the float division and product are exact real arithmetic. Float rounding is not modelled, and neither is the float percentage in `updateModule` (electronics.py:107, 116, 121). Only the branch choice, the bounds and the zero cases are claimed.
- The `schedule` module that `electronics.py` imports is not part of this model. Its percentage is an abstract real parameter and its stage an enumeration with the two dark stages named. The unused extra `getBrightness` call at electronics.py:100 is not modelled.
- The PCA9685 driver is out: its construction and `set_pwm_freq` (electronics.py:74-88). `set_pwm` calls are recorded writes, and the write that raises, if any, is a parameter of `UpdateModule`.
