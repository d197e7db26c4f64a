# Hydroponics control engine and alert manager, in Dafny

This project models the actuator-control core of a hydroponics dashboard.
That core has three parts:

- **The control endpoints** (`routes/api.py`). A toggle request on a named
  control (pump, motor, fan, light) passes three safety interlocks in a fixed
  order: the operator lock, run-dry protection for pumps, and mutual exclusion
  of the two pH-dosing pumps. If it passes, the control's state is updated and
  one audit-log entry is appended. The other endpoints are a bulk mode change,
  an emergency stop that forces every active control off, and the listing of
  all states.
- **The notification manager** (`static/js/main.js`). It classifies each
  sensor value against its ideal range as critical, warning or normal. It keeps
  a de-duplicated, most-recent-first list of at most 20 notifications and counts
  the unread ones for a badge.
- **The records** those two read and write (`models.py`): `ControlStatus`,
  `ControlLog` and `SensorData`, with their defaults and their dictionary forms.

The document store becomes a map from document id to `ControlStatus` (the
`Registry`). The log collection becomes an append-only sequence. Each handler
is a method of the class `ControlService` that changes those two fields in one
atomic step. Each method is proved against a pure function (`ToggleStep`,
`WithMode`, `StopAll`), and the lemmas state the safety properties about those
functions. The notification list is a `seq` field of the class
`NotificationManager`, and its methods are proved against `Added`, `Without`,
`AllRead` and `Generated`.

Files:

- `wrappers.dfy`: the `Option` type.
- `text.dfy`: decimal numerals, as JavaScript prints counts.
- `models.dfy`: module `Models`.
- `interlocks.dfy`: module `Interlocks`, the three rules as pure predicates.
- `control_api.dfy`: module `ControlApi`, the state machine and `ControlService`.
- `alerts.dfy`: module `Alerts`, the pure parts of `main.js`.
- `notifications.dfy`: module `Notifications`, the list operations and `NotificationManager`.

Inputs the model takes as parameters:

- the current time (`now`);
- the latest sensor reading, which is optional;
- the ideal-range table `GLOBAL_IDEALS`, which is defined outside the modelled files;
- the notifications previously saved in local storage.

Two behaviours of the code are worth noting:

- Run-dry protection does not look at the requested state
  (routes/api.py:73). Once the latest reading can be read, as in
  `ToggleOutcome`, a request to switch a pump OFF is therefore refused as well
  while the water is low (`RunDryFires`, `OffRequestOnlyRunDry`). As written,
  routes/api.py:68 raises before that check, so such a request ends in a 500;
  see "## Findings".
- The bulk mode change stores any value and reports no count
  (routes/api.py:122-136). `WithMode` models it.

## Model

| member | source | states |
|---|---|---|
| `Models.NewControlStatus` | models.py:76-86 | the name is kept; an absent or empty id falls back to the name; absent settings become `{}` and given settings are stored; is_on, mode, locked, locked_reason and last_active are stored as given |
| `Models.ControlDefaults` | models.py:76-86 | a control created with only a name is off, in mode 'manual', unlocked, with no reason, no last-active time, empty settings and its name as id |
| `Models.ControlToDict` | models.py:88-97 | the dictionary has exactly the keys name, is_on, settings, mode, locked, locked_reason, last_active, and no id |
| `Models.ControlFromKwargs` | routes/views.py:71 | rebuilding with `ControlStatus(**d, id=id)` fails when d holds an unknown key, `id` again, or no name; otherwise the name comes from d |
| `Models.ControlRoundTrip` | models.py:76-97 | rebuilding a control from its own dictionary under its own document id gives back the same control |
| `Models.NewControlLog` | models.py:100-105 | a log entry stores the given time, control name, action, trigger and details |
| `Models.LogDefaults` | models.py:100 | the trigger defaults to 'manual' and the details to None |
| `Models.LogToDict` | models.py:107-114 | the dictionary has exactly the keys timestamp, control_name, action, trigger, details |
| `Models.LogRoundTrip` | models.py:107-114 | the dictionary carries every field of the entry unchanged: it can be read back into the same entry |
| `Models.NewSensorData` | models.py:65-67 | a reading keeps its measurement dictionary and is stamped with the given time |
| `Models.SensorToDict` | models.py:69-73 | the keys are the reading's keys plus timestamp; reading values win over the timestamp |
| `Interlocks.ContainsIffOccurs` | routes/api.py:73 | the substring test used to classify control names holds exactly when the pattern occurs at some position |
| `Interlocks.IsPump` | routes/api.py:73 | a control counts as a pump exactly when "pump" occurs somewhere in its name |
| `Interlocks.IsPhDoser` | routes/api.py:80 | a control counts as a pH doser exactly when "ph" occurs somewhere in its name |
| `Interlocks.Opposite` | routes/api.py:81 | the doser that must not run alongside is ph_down_pump exactly when the name contains "up", and ph_up_pump otherwise; it is always a pump and a pH doser, and never the control itself |
| `Interlocks.LockFires` | routes/api.py:61 | the lock rule fires exactly on an ON request for a locked control |
| `Interlocks.RunDryFires` | routes/api.py:73 | run-dry protection fires only for pumps, never when the reading has no water_level, and for a numeric level exactly when the control is a pump and the level is below 15.0, whatever the requested state |
| `Interlocks.DosingFires` | routes/api.py:80-83 | the pH rule fires exactly on an ON request for a pH doser whose opposite exists and is on; the opposite is never the doser itself |
| `Interlocks.WaterLevel` | routes/api.py:70-73 | a missing water_level reads as 100; a numeric one is used as it is; a boolean compares as 1 or 0; any other value makes the `< 15.0` comparison raise (None) |
| `Interlocks.LockMessage` | routes/api.py:61-65 | a locked control is refused with its stored reason (even an empty one) after "Action Blocked: ", or 'Safety Lock Active' when it has none |
| `Interlocks.LockMessageAsWritten` | routes/api.py:64 | as written, a stored reason is shown as is, exactly as in the corrected message, and a missing one as "None" |
| `Interlocks.LockMessageAsWrittenIgnoresDefault` | routes/api.py:64 | as written, a control locked without a reason shows "Action Blocked: None", not the default message |
| `Interlocks.Evaluate` | routes/api.py:60-87 | the rules run in the order lock, water, pH, and the first that fires decides; a request is allowed exactly when none fires and the water comparison does not raise; a refusal carries its rule's message (the lock message, the run-dry message or the dosing message) |
| `Interlocks.LockedOnRequestDenied` | routes/api.py:61-65 | a locked control asked to switch on is refused with the lock message, whatever the sensors say |
| `Interlocks.OffRequestOnlyRunDry` | routes/api.py:61-87 | an OFF request is refused exactly when run-dry protection fires; the lock and pH rules never stop it |
| `Interlocks.LowWaterDeniesPump` | routes/api.py:73-77 | when the lock has not already refused it, any request on a pump is refused with the run-dry message while water_level < 15.0, ON and OFF alike |
| `Interlocks.WaterBoundaryPasses` | routes/api.py:73 | a level of exactly 15.0, or no level at all, passes run-dry protection |
| `Interlocks.DosersArePaired` | routes/api.py:80-81 | ph_up_pump and ph_down_pump are each other's opposite, and both count as pumps and as pH dosers |
| `Interlocks.DosingExclusion` | routes/api.py:80-87 | for an unlocked dosing pump with enough water, an ON request is refused exactly when the opposite doser exists and is on, and allowed otherwise |
| `ControlApi.StatusCode` | routes/api.py:62-108 | 200 for an applied toggle, 403 for a refusal, 404 for an unknown control |
| `ControlApi.SensorValues` | routes/api.py:69-70 | with no reading the interlocks see an empty dictionary; otherwise they see the latest reading's dictionary |
| `ControlApi.ToggleOutcome` | routes/api.py:52-108 | an unknown name is not found (404); the change is applied exactly when the interlocks allow it, with the requested state; a refusal by any rule is answered Blocked (403) with that rule's message; ServerError (500) comes exactly from a water level the comparison cannot handle |
| `ControlApi.ToggleEntry` | routes/api.py:98-103 | the log entry of a toggle names the control, has action ON exactly for ON and OFF exactly for OFF, and has trigger manual |
| `ControlApi.ToggleStep` | routes/api.py:89-104 | a toggle keeps the set of documents and every other control unchanged; the log only grows, by one entry exactly when the toggle is applied |
| `ControlApi.RefusedToggleChangesNothing` | routes/api.py:60-88 | a refused, unknown or failed request changes neither the registry nor the log |
| `ControlApi.AcceptedToggleEffect` | routes/api.py:91-104 | an accepted toggle sets is_on, sets last_active only when switching on, touches no other field and no other control, and appends exactly one ON/OFF manual entry |
| `ControlApi.LockedStaysOff` | routes/api.py:61-65 | a locked control that is off stays off through any toggle request |
| `ControlApi.ToggleKeepsDosersExclusive` | routes/api.py:80-87 | no toggle request can leave both pH dosers on |
| `ControlApi.ToggleKeepsRegistered` | routes/api.py:91-95 | a toggle keeps every document under its own name |
| `ControlApi.WithMode` | routes/api.py:131-134 | every control, and only the controls already there, gets the given mode; nothing else changes |
| `ControlApi.OnNames` | routes/api.py:144 | the active-controls query selects exactly the controls that are on |
| `ControlApi.StopAll` | routes/api.py:148-149 | every control ends off, with no other field changed |
| `ControlApi.StopEntry` | routes/api.py:152-157 | an emergency entry names the control, with action OFF and trigger emergency |
| `ControlApi.StopEntries` | routes/api.py:151-158 | the emergency stop writes exactly one log entry per control it stops |
| `ControlApi.StopEntriesAt` | routes/api.py:148-159 | the i-th emergency entry belongs to the i-th control stopped |
| `ControlApi.NoDupsCard` | routes/api.py:159 | counting distinct stopped controls gives the number of controls that were on |
| `ControlApi.StopActive` | routes/api.py:144-161 | the sweep stages every active control off, records one entry per stopped control, and counts exactly the controls that were on |
| `ControlApi.StopAllLeavesNothingOn` | routes/api.py:144-162 | after an emergency stop nothing is on, so an immediate second stop counts 0 and changes nothing |
| `ControlApi.BulkKeepsInvariants` | routes/api.py:126-162 | neither the mode change nor the emergency stop can leave both dosers on or move a control to another key |
| `ControlApi.ToggleOutcomeAsWritten` | routes/api.py:68 | as written, no toggle is ever applied: unknown names are not found; a locked ON request is Blocked with the as-written lock message; every other request on a known control is ServerError |
| `ControlApi.SensorQueryFinding` | routes/api.py:68 | switching on an unlocked pump with water_level 50 fails as written, and is applied in the model |
| `ControlApi.LockReasonFinding` | routes/api.py:61-65 | a control locked without a reason is refused with "Action Blocked: None" as written, and with the default message in the model |
| `ControlApi.ControlService.Toggle` | routes/api.py:47-108 | the answer is ToggleOutcome, and the registry and log become ToggleStep of the old ones |
| `ControlApi.ControlService.States` | routes/api.py:110-118 | every control's name is listed with the is_on of a control of that name; when documents are keyed by name, the listing is exactly name to is_on |
| `ControlApi.ControlService.SetAllModes` | routes/api.py:122-136 | the registry becomes WithMode of the old one, and the log is unchanged |
| `ControlApi.ControlService.EmergencyStop` | routes/api.py:140-162 | the registry becomes StopAll of the old one, the count equals the number of controls that were on, and one OFF/emergency entry per stopped control is appended |
| `Alerts.Classify` | static/js/main.js:30-43 | for every range: HIGH exactly above max; LOW exactly at or below max and below min; a warning exactly inside [min, max] and above 0.9*max or below 1.1*min; TRENDING HIGH exactly inside [min, max] and above 0.9*max; TRENDING LOW exactly inside [min, max], not above 0.9*max and below 1.1*min; no alert exactly inside [min, max] and on [1.1*min, 0.9*max] |
| `Alerts.CriticalIffOutOfRange` | static/js/main.js:30-37 | a reading is critical exactly when it lies outside [min, max] |
| `Alerts.NormalBand` | static/js/main.js:38-43 | for the usual non-negative bounds the no-alert band is simply [1.1*min, 0.9*max]: the [min, max] condition adds nothing |
| `Alerts.GetActionSuggestion` | static/js/main.js:73-83 | the suggestion is the table's entry for (key, state) when there is one; it is 'Check system controls' exactly when there is none; it is never empty |
| `Alerts.BadgeText` | static/js/main.js:130-140 | the badge is hidden at 0, shows "9+" above 9, and otherwise shows one digit that reads back as the count |
| `Alerts.TimeAgo` | static/js/main.js:174-181 | the label is 'Just now' exactly when less than 60 000 ms have passed |
| `Alerts.TimeAgoBuckets` | static/js/main.js:174-180 | 'Just now' exactly under 60 s; under an hour, whole minutes (1 to 59) followed by 'm ago'; otherwise whole hours followed by 'h ago' |
| `Alerts.TimeAgoSeparates` | static/js/main.js:174-181 | two ages under an hour with different whole minutes, or two ages of an hour or more with different whole hours, get different labels |
| `Text.ParseNatToString` | static/js/main.js:178 | the printed minute or hour count reads back as the number printed |
| `Notifications.NotificationId` | static/js/main.js:47 | the id is the key, an underscore, then the severity's name |
| `Notifications.NotificationIdInjective` | static/js/main.js:47 | ids `key_severity` of different keys or severities never coincide |
| `Notifications.IndexOf` | static/js/main.js:86 | the first position holding the id, or -1 exactly when no entry has it |
| `Notifications.FindIndex` | static/js/main.js:86 | the search loop returns that first position, or -1 exactly when no entry has the id |
| `Notifications.Added` | static/js/main.js:85-98 | the answer is true exactly when the id was not listed; afterwards the id is listed; the list grows by at most one and a list of at most 20 stays at most 20 |
| `Notifications.AddExisting` | static/js/main.js:87-92 | adding a listed id returns false, keeps the length, order and ids, and changes only that entry's value and timestamp |
| `Notifications.AddNew` | static/js/main.js:93-97 | adding a new id returns true and puts it first, followed by the old list in order with the oldest dropped past 20; at most 20 before means at most 20 after |
| `Notifications.AddedKeepsUniqueIds` | static/js/main.js:85-98 | adding keeps the ids unique |
| `Notifications.Without` | static/js/main.js:102 | removal keeps only entries of the old list with another id |
| `Notifications.WithoutKeepsOthers` | static/js/main.js:102 | removal keeps every entry with another id |
| `Notifications.WithoutAppend` | static/js/main.js:102 | removal works piecewise over a concatenation, so the kept entries stay in their relative order |
| `Notifications.WithoutAbsent` | static/js/main.js:100-103 | removing an id that is not listed changes nothing |
| `Notifications.WithoutKeepsUniqueIds` | static/js/main.js:102 | removal keeps the ids unique |
| `Notifications.AllRead` | static/js/main.js:111 | every entry is marked read and nothing else changes |
| `Notifications.UnreadCount` | static/js/main.js:132 | the count is 0 exactly when no entry is unread, and never exceeds the list length |
| `Notifications.AllReadLeavesNothingUnread` | static/js/main.js:110-115 | after marking all as read the unread count is 0 and the ids are unchanged |
| `Notifications.MakeNotification` | static/js/main.js:46-56 | a new alert has id `key_severity`, is unread, and carries the key, the value, the range, the severity, the given time and the title 'KEY TYPE'; it suggests the table action for high/low or 'Monitor closely' for a warning |
| `Notifications.AlertStep` | static/js/main.js:19-63 | keys without an ideal range and non-numeric values change nothing; an alerting reading leaves its `key_severity` id listed, and the new-alert flag is set exactly when that id was not listed before; a new alert is first in the list, for this key and unread; the list grows by at most one |
| `Notifications.Cleared` | static/js/main.js:59-62 | neither key_critical nor key_warning is listed afterwards, and every remaining entry was listed before |
| `Notifications.NormalReadingClears` | static/js/main.js:59-62 | a reading back in the normal band leaves neither key_critical nor key_warning listed, and keeps every notification of other keys |
| `Notifications.CriticalKeepsWarning` | static/js/main.js:45-58 | a critical alert does not remove the same key's warning (below the 20-entry cap) |
| `Notifications.AlertStepKeeps` | static/js/main.js:19-63 | one reading keeps the ids unique and the list within 20 entries |
| `Notifications.Generated` | static/js/main.js:17-71 | a round grows the list by at most one entry per reading; readings whose keys have no ideal range change nothing and raise no new alert |
| `Notifications.GeneratedKeeps` | static/js/main.js:17-71 | a whole round of alerts keeps the ids unique and the list within 20 entries |
| `Notifications.NotificationManager.AddNotification` | static/js/main.js:85-98 | the list and the answer become Added of the old list |
| `Notifications.NotificationManager.RemoveNotification` | static/js/main.js:100-108 | the list becomes Without of the old list |
| `Notifications.NotificationManager.MarkAllAsRead` | static/js/main.js:110-115 | the list becomes AllRead of the old list |
| `Notifications.NotificationManager.ClearAll` | static/js/main.js:117-122 | the list becomes empty |
| `Notifications.NotificationManager.Badge` | static/js/main.js:130-141 | the badge shows BadgeText of the number of unread entries |
| `Notifications.NotificationManager.GenerateAlerts` | static/js/main.js:17-71 | the list and the new-alert flag become Generated of the old list over the readings, in payload order |

## Left out

- `firebase_config.py`, `routes/auth.py`, `app.py` and `routes/views.py` are not part of this model. They cover client initialisation, login and sessions, seeding and page rendering. The one exception is the rebuild at routes/views.py:71, which is modelled by `ControlFromKwargs`.
- Request parsing in `routes/api.py` is not modelled. `name` is always a string and `state` is always a boolean; the truthiness of other JSON values is not modelled.
- The "Database not connected" answer (HTTP 500 when no client is configured) is not modelled. The store is always present.
- The random sensor simulation and the mock image endpoints are left out. They hold no behaviour to state.
- HTTP response bodies are not modelled beyond the refusal messages and status codes. This includes the text "Stopped N active devices." and the mode echo.
- Batch commits, timing and concurrency are not modelled. Each handler is one atomic step. In the source, the emergency stop adds its log entries before the batch commits.
- ControlService.EmergencyStop: the order of the emergency log entries is left open, because the source follows the store's query order. The model only says that each active control gets exactly one entry.
- Timestamps are parameters. All entries written by one call share one `now`.
- The `User`, `Plant` and `TankLevel` records of `models.py` are not used by the core.
- Models.ControlFromKwargs: Python stores values of any type. The typed record refuses values it cannot hold, for example a non-boolean `is_on`.
- `render`, `getIcon`, `playAlertAnimation`, the local-storage save and load, the polling loop and `updateDashboard` are DOM, timer or browser-storage code. The animation trigger is returned as `newAlerts`, and the loaded list is a constructor parameter.
- Numbers are modelled as reals. Binary floating point, `parseFloat`'s string parsing (NaN becomes `None`), and the text made by `toFixed(1)` and `String(min)` are not modelled. A notification stores the number and the range instead of their text.
- `Object.entries` order is given as the order of the reading sequence.
- Notifications are values. Aliasing of the JavaScript objects the list holds is not modelled.
- `toUpperCase` is modelled for ASCII letters only.
- `getActionSuggestion` is not modelled for key or state names that are properties of JavaScript's object prototype. Callers pass only 'high' and 'low'.
- `timeAgo` is not modelled for unparseable dates (NaN).

## Findings

| source | as written | input that shows it | evidently intended | confidence | as-written member | corrected member |
|---|---|---|---|---|---|---|
| routes/api.py:68 | the sensor query uses `firestore`, which routes/api.py never imports, so every toggle that passes the lock check raises NameError (HTTP 500) | `n_pump` off and unlocked, latest water_level 50, request ON | evaluate the water and pH rules against the latest reading and apply the change | high, not executed | `ControlApi.ToggleOutcomeAsWritten` | `ControlApi.ToggleOutcome` |
| routes/api.py:64 | `get('locked_reason', 'Safety Lock Active')` on a document written by `to_dict`, which always stores `locked_reason` (None by default) | a control created as `ControlStatus(name)`, then locked with no reason, receives an ON request | refuse with "Action Blocked: Safety Lock Active" | medium, not executed | `Interlocks.LockMessageAsWritten` | `Interlocks.LockMessage` |
