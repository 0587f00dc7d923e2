# Zenoss maintenance-window tool, modelled in Dafny

`zen_maint.py` puts a set of Zenoss organizers into maintenance. The user
names a *context* from an applications file. The context lists organizers
of four kinds: component groups, groups, systems and devices. For every
listed organizer (a *target*), the tool does these steps in order:

1. it builds the organizer URI;
2. it checks that the organizer exists;
3. it disables the organizer's stale one-off maintenance windows (the *sweep*);
4. it parses the start and duration arguments;
5. it creates a new maintenance window.

Every error ends the whole program (`exit(1)` or an uncaught exception).

The model takes the form of the source:

- The pure parts are Dafny functions:
  - the start-time parser (`StartTime.ParseStart`);
  - the duration parser (`Duration.ParseDuration`);
  - the decoding of a server window's duration (`Staleness.DecodeWindowDuration`);
  - the staleness test and edit request (`Staleness.Assess`);
  - the create request (`Requests.NewWindowParams`);
  - the organizer URIs (`Requests.OrganizerUid`).
- The two loops are methods proved against specification functions:
  - the sweep over the listed windows (`Staleness.CleanWindows`, against `Staleness.Swept`);
  - the nested loops of the driver (`Maintenance.Maintain`, against `Maintenance.MaintenanceRun`).
- One handler call is `Targets.HandleTarget`, against `Targets.TargetRun`. It records every remote call it issues, in order, in a `Targets.Trace`, together with the failure that ended the run, if any.
- `Maintenance.Maintain` calls its handler through a function value, the way the source calls `org_func` from the handler table. `Maintenance.TargetHandler` is that table applied to the replies of each call.

Some inputs come from outside the tool. Each becomes a parameter:

- the replies to the remote calls (`Targets.TargetEnv`, one per handler call);
- the clock readings;
- the parsed applications file;
- the iteration order of the handler table.

Modules, in dependency order: `Base` (option, result, failure tags),
`Text` (digits, zero padding, fixed-width fields, shapes), `StartTime`,
`Duration`, `Requests`, `Staleness`, `Targets`, `Maintenance`.

Two behaviours of the code that differ from what its messages suggest:

- **Hostname lookup.** For a device given by hostname, the code does not go on with the first match when there are several. With `totalCount > 1` it leaves `org_uid` unbound, and the existence check then crashes. A successful lookup with no device crashes on the empty list. Both are fatal in the model (`AmbiguousHostname`, `UnknownHostname`).
- **Failed edit.** A failed disable edit is not merely logged. The message format at line 151 raises, so as written that failure is fatal. The sweep is modelled both as written (`Staleness.SweptAsWritten`) and as evidently intended (`Staleness.Swept`). The handler and the driver are built on the intended sweep; see Findings and "Left out".

## Model

| member | source | states |
|---|---|---|
| Text.PadLeft | zen_maint.py:48-49 | `'{:0>2}'` left-pads with zeros to at least the width and leaves longer text unchanged; digits stay digits |
| Text.PadLeftKeepsValue | zen_maint.py:48-49 | padding a digit string never changes the number it denotes |
| Text.Fixed | zen_maint.py:81-83 | a strftime field: exactly `width` digits |
| Text.FixedNatOf | zen_maint.py:29 | a fixed-width digit field read as a number and written back at its width is the same text |
| Text.NatOfFixed | zen_maint.py:81-83 | a number below 10^width written at that width reads back as itself |
| StartTime.ParseStart | zen_maint.py:24-41 | "now" gives the clock reading; each of the three anchored shapes is accepted if and only if the date-time strptime reads from it exists; nothing else is accepted; every failure is the fatal MalformedStart; seconds are 0 except for "now"; a valid clock gives a valid date-time |
| StartTime.FullFormFields | zen_maint.py:28-29 | "DD/MM/YYYY HH:MM" yields exactly the written day, month, year, hour and minute |
| StartTime.DayMonthFormFields | zen_maint.py:30-33 | "DD/MM HH:MM" yields the written fields with the year of the clock |
| StartTime.TimeFormFields | zen_maint.py:34-37 | "HH:MM" yields the written time on the clock's date |
| StartTime.FieldRead | zen_maint.py:29 | a parsed field written back at its width is the text it came from |
| StartTime.ParseFullText | zen_maint.py:28-29 | every valid date-time written in the full form parses back to itself, to the minute |
| StartTime.ParseDayMonthText | zen_maint.py:30-33 | every day, month and time that exist in 1900, written "DD/MM HH:MM", are accepted and placed in the clock's year |
| StartTime.ParseTimeText | zen_maint.py:34-37 | every time of day written "HH:MM" is accepted and placed on the clock's date |
| StartTime.LeapDayWithoutYearRefused | zen_maint.py:30-32 | "29/02 HH:MM" is refused in every year, because strptime reads it in 1900 |
| StartTime.ShortFieldRefused | zen_maint.py:28-40 | a one-digit day matches no shape and is fatal |
| Duration.Anchored | zen_maint.py:45 | what `$` lets through: the text itself or the text minus one final newline |
| Duration.MatchDHM | zen_maint.py:45-47 | a match is three non-empty digit runs written with "d", "h", "m" |
| Duration.MatchHM | zen_maint.py:50-52 | a match is two non-empty digit runs written with "h", "m" |
| Duration.MatchH | zen_maint.py:56-58 | a match is a non-empty digit run followed by "h" |
| Duration.MatchM | zen_maint.py:62-64 | a match is a non-empty digit run followed by "m" |
| Duration.ParseDuration | zen_maint.py:44-71 | failure is the fatal MalformedDuration; days are a non-empty digit run; hours and minutes are digits of length at least two |
| Duration.ParseWritten | zen_maint.py:44-67 | each of the four forms, with or without a final newline, parses to its fields: days as written, hours and minutes zero-padded, missing parts "0" or "00" |
| Duration.ParsesDHM | zen_maint.py:45-47 | the days form matches with its three parts |
| Duration.ParsesHM | zen_maint.py:50-52 | the hours-minutes form matches and the days pattern does not |
| Duration.ParsesH | zen_maint.py:56-58 | the hours form matches and the two earlier patterns do not |
| Duration.ParsesM | zen_maint.py:62-64 | the minutes form matches and the three earlier patterns do not |
| Duration.OnlyFormsParse | zen_maint.py:44-70 | whatever is accepted is one of the four forms (optionally newline-terminated) and yields that form's fields |
| Duration.ThirtyHours | zen_maint.py:56-61 | hours are not range-checked: "30h" gives ("0", "30", "00") |
| Duration.DaysHoursMinutesExample | zen_maint.py:45-49 | "1d2h3m" gives ("1", "02", "03") |
| Duration.HoursMinutesExample | zen_maint.py:50-55 | "2h30m" gives ("0", "02", "30") |
| Duration.HoursExample | zen_maint.py:56-61 | "3h" gives ("0", "03", "00") |
| Duration.MinutesExample | zen_maint.py:62-67 | "45m" gives ("0", "00", "45") |
| Duration.NoDigitsRefused | zen_maint.py:68-70 | "abc" is fatal |
| Duration.NoUnitRefused | zen_maint.py:68-70 | "2h30" (minutes without their unit) is fatal |
| Requests.OrganizerUid | zen_maint.py:158 | the URI is the kind's prefix followed by the path verbatim (likewise lines 178, 198, 221) |
| Requests.OrganizerUidInjective | zen_maint.py:158 | the URI is the kind's prefix followed by the path verbatim (likewise lines 178, 198, 221), and distinct kinds or paths never share a URI |
| Requests.NewWindowParams | zen_maint.py:77-91 | the create request has id "", Europe/Brussels, Never, production state 300 and enabled; it carries uid and name; the date is shaped MM/DD/YYYY and its fields, the hours and the minutes read back as the start's month, day, year, hour and minute; the duration fields are the parsed ones; a start before 1900 (refused by strftime) is fatal, and only that |
| Requests.StartDate | zen_maint.py:81 | `%m/%d/%Y` is shaped MM/DD/YYYY and its three fields read back as the date's month, day and year |
| Requests.CreateFromFullStart | zen_maint.py:81-87 | for a full-form start, the request carries the written month, day and year reordered to MM/DD/YYYY, the written hour and minute, and the parsed duration fields |
| Requests.CreateFromDayMonthStart | zen_maint.py:81-83 | for a "DD/MM HH:MM" start, the request carries the written month and day reordered to MM/DD, the clock's year, and the written hour and minute |
| Requests.CreateFromTimeStart | zen_maint.py:81-83 | for an "HH:MM" start, the request carries the clock's month, day and year and the written hour and minute |
| Staleness.DecodeWindowDuration | zen_maint.py:112-127 | the duration is unreadable if and only if it begins neither with "HH:MM" nor with a days prefix followed by "HH:MM:SS"; a decoded duration has two-digit hours and minutes, and its seconds are days*86400 + hours*3600 + minutes*60, with an absent or empty days group counting as 0 |
| Staleness.DecodeDaysForm | zen_maint.py:112-118 | "N days HH:MM:SS..." gives N*86400 + HH*3600 + MM*60 with the seconds ignored and the fields as written |
| Staleness.DecodeClockForm | zen_maint.py:119-124 | text that only matches "HH:MM" gives HH*3600 + MM*60 with days reported as "00" |
| Staleness.DecodeNoDaysForm | zen_maint.py:112-118 | "HH:MM:SS..." without a days count gives HH*3600 + MM*60 with the days group absent |
| Staleness.DecodeRefusesThreeDigitHours | zen_maint.py:112-127 | "123:45" matches neither pattern and is unreadable |
| Staleness.DisableEdit | zen_maint.py:135-148 | the edit addresses the organizer and the window's id, keeps its repeat, sets enabled false, and its date, hours and minutes are shaped MM/DD/YYYY, HH and MM |
| Staleness.Assess | zen_maint.py:107-148 | disabled and repeating windows are kept; a window fails only for an unreadable duration or start; a disable edit addresses the organizer and the window, repeats "Never" and sets enabled false |
| Staleness.DisableExactlyStale | zen_maint.py:107-148 | a window is disabled if and only if it is enabled, repeats "Never", has a readable duration, ends strictly before now and has a readable start; the edit keeps id, timezone, repeat, production state and duration fields, reorders YYYY/MM/DD to MM/DD/YYYY and sets enabled false |
| Staleness.IgnoredWindowsKept | zen_maint.py:107-111 | disabled and repeating windows are skipped before anything is read |
| Staleness.CurrentWindowKept | zen_maint.py:129-130 | a window ending at or after now is kept |
| Staleness.OneHourWindow | zen_maint.py:112-130 | a one-hour window is disabled two hours after its start and kept half an hour after it |
| Staleness.Swept | zen_maint.py:107-154 | the intended sweep stops only for an unreadable duration or start |
| Staleness.RunFails | zen_maint.py:125-134 | the intended sweep (`Run`) stops only at an unreadable window, with that window's failure |
| Staleness.RunStops | zen_maint.py:125-134 | once a window is unreadable, later windows are never looked at |
| Staleness.RunCompletes | zen_maint.py:107-154 | the sweep completes if and only if no window is unreadable |
| Staleness.RunSound | zen_maint.py:129-149 | every edit sent is the disable edit of some listed window |
| Staleness.RunComplete | zen_maint.py:107-149 | in a completed sweep every stale window's edit is sent, exactly once per stale window |
| Staleness.CleanWindows | zen_maint.py:100-154 | the loop issues exactly the edits and failure of the sweep specification |
| Staleness.AsWrittenAgreesWhenEditsSucceed | zen_maint.py:149-154 | when every edit succeeds, the code as written and the corrected sweep agree |
| Staleness.RunAsWritten | zen_maint.py:149-152 | as written, the sweep stops at an unreadable window or at a stale window whose edit was refused (DisableFailed), and issues at most one edit per window |
| Staleness.SweptAsWritten | zen_maint.py:107-154 | as written, the sweep stops only for an unreadable duration or start or a refused edit |
| Staleness.AsWrittenEditsPrefix | zen_maint.py:149-154 | as written, the sweep issues a prefix of the intended edits, and equals the intended sweep whenever it does not fail |
| Staleness.RefusedEditStopsAsWritten | zen_maint.py:150-152 | as written, a refused first edit stops the sweep before the second stale window, where the corrected sweep edits both |
| Targets.Resolve | zen_maint.py:218-232 | a path (any kind but devices, or a device given as "/...") becomes the prefixed URI without any call; a hostname costs one getDevices call and succeeds exactly when the lookup succeeds with at most one and at least one device, whose URI is used; otherwise LookupFailed, AmbiguousHostname or UnknownHostname |
| Targets.TargetRun | zen_maint.py:157-174 | a completed handler call issued at least three calls, the last a create request; it never fails with DisableFailed (the intended sweep) |
| Targets.Create | zen_maint.py:165-173 | the last steps keep the calls so far and add at most one call; a completed run adds exactly one create request; they fail only with MalformedStart, MalformedDuration, StartBefore1900 or CreateFailed |
| Targets.HandleTarget | zen_maint.py:157-174 | one handler call issues exactly the calls, in the order, and ends with the failure of the step specification (resolve, check, sweep, parse, create) |
| Targets.SweepEditsSane | zen_maint.py:135-148 | every edit of a sweep disables a non-repeating window of that organizer |
| Targets.TargetCallsSane | zen_maint.py:77-91 | every request a handler call sends is sane (creates carry the fixed fields, edits disable); for a path every call addresses the prefixed URI |
| Targets.ExistenceCheckedFirst | zen_maint.py:12-21 | when the organizer cannot be confirmed, only the lookup and the existence check were issued, and the run fails |
| Targets.BadArgumentsAfterSweep | zen_maint.py:163-169 | a malformed start or duration is detected only after the stale windows were disabled, and nothing is created |
| Targets.CompletedTargetCreatesLast | zen_maint.py:171-173 | a completed handler call ends with the one create request for the parsed start and duration, and no earlier call creates |
| Targets.CompletedTargetTrace | zen_maint.py:157-173 | a completed handler call issued exactly, in order: the lookup (for a hostname), the existence check, the listing, the sweep's disable edits and the create request for the parsed start and duration |
| Maintenance.ExpandListed | zen_maint.py:271-274 | every target of the expanded context (`Expand`) is a leaf listed in the context under a kind of the handler table |
| Maintenance.TargetHandler | zen_maint.py:252-257 | the handler table applied to the replies of each call: every request any handler call sends is sane |
| Maintenance.RunFailureFrom | zen_maint.py:274-275 | a failed run (`RunUpTo`) carries the failure of one of its handler calls |
| Maintenance.MaintenanceRun | zen_maint.py:259-276 | a file without Applications, or a context it does not list, is fatal before any remote call |
| Maintenance.Maintain | zen_maint.py:259-276 | the driver issues exactly the calls and failure of the driver specification |
| Maintenance.HandleContext | zen_maint.py:271-275 | the outer loop over the kinds issues exactly the calls and failure of the handler calls over the context's targets, in order |
| Maintenance.HandleKind | zen_maint.py:271-275 | one pass of the outer loop: a kind the context does not list adds nothing; otherwise the handler calls of its leaves follow the earlier ones, and a failure is the failure of the whole run |
| Maintenance.HandleLeaves | zen_maint.py:274-275 | the inner loop: one handler call per leaf in list order, stopping at the first failure |
| Maintenance.ExpandPerKind | zen_maint.py:271-274 | every leaf listed under a kind is handled, in list order; a kind the context does not mention contributes nothing |
| Maintenance.ExpandSelect | zen_maint.py:271-274 | each kind's targets are exactly its group when the order has that kind |
| Maintenance.RunStops | zen_maint.py:274-275 | after a fatal handler call no later target runs |
| Maintenance.FirstFatalStops | zen_maint.py:274-275 | no isolation: the first failing target ends the run with its failure, after its own calls |
| Maintenance.RunCompletes | zen_maint.py:274-275 | the run completes if and only if every handler call completes, and then it issued their calls one target after the other |
| Maintenance.RunCallsFrom | zen_maint.py:274-275 | the run issues only calls of its handler calls |
| Maintenance.MaintenanceSane | zen_maint.py:259-276 | whatever the file, context, arguments and replies, every create request carries the fixed fields and every edit disables |

## Left out

- `update_cgroup.py` is not part of this model. It is remote calls and printing only.
- The RPC transport (the `zenApiLib` routers) is left out. Each reply is an input value of `Targets.TargetEnv`. For getDevices, only `success`, `totalCount` and the devices' URIs are kept.
- Loading the YAML file is left out. The parsed `Applications` section is a parameter, and None stands for a file without that key. Other shapes are not modelled: a null document, a context that is not a mapping, a leaf list that is null.
- Argument parsing and the `__main__` block are left out.
- The clocks are parameters: `datetime.now()` in start_format and `time.time()` in the sweep. The unused reading at line 260 is left out.
- The iteration order of the `context_defs` dictionary depends on Python 2 string hashing. It is a parameter of the driver, and the per-kind lemmas hold for every order.
- Message texts and `print` output are left out. Only the failure tag and the calls are modelled.
- Some error paths crash with an exception instead of calling `exit(1)`:
  - the undefined `group` at lines 126 and 133;
  - the format string at line 151.
  The first is fatal either way, so it is modelled as the fatal outcome of its path. The second changes behaviour; see Findings.
- The message at line 94 reads the global `name` instead of the parameter `maint_name`. When the file runs as a script, line 297 sets that global to the same value, so the run still ends with `exit(1)` (modelled as CreateFailed) and only the message text is involved.
- Microseconds of `datetime.now()` are left out.
- `int()` of a start that the server sends as a float or a string is left out: the window's `start` is an integer.
- Targets.HandleTarget: built on the intended sweep (`Staleness.Swept`, `Staleness.CleanWindows`), so the replies to editMaintWindow are not inputs, and a refused edit does not end the handler call. As written, the first refused edit raises at line 151: no later window is edited, nothing is created, and no later target runs. The as-written sweep is `Staleness.SweptAsWritten`. `Staleness.AsWrittenEditsPrefix` shows that it issues a prefix of the intended edits and agrees with the intended sweep whenever it does not fail.
- Maintenance.Maintain: runs the handler above, so it inherits the same difference for a refused edit.

## Findings

| source | as written | input that shows it | evidently intended | confidence | as-written member | corrected member |
|---|---|---|---|---|---|---|
| zen_maint.py:151 | the message for a refused disable edit uses the format string `'{}}'`, which raises "Single '}' encountered", so the first refused edit ends the program and later stale windows stay enabled | two stale windows whose first editMaintWindow reply has success false | report the refused edit and go on with the next window, as the success branch does | not executed | Staleness.RefusedEditStopsAsWritten | Staleness.CleanWindows |
