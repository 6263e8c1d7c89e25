# Daily Discipline Tracker: a Dafny model of the task list, the daily reset and the reminder scheduler

Daily Discipline is an Android app that keeps a daily checklist of tasks. Every
task is reset to "not done" once per calendar day. Repeating alarms fire over a
window of the day, and when tasks are left open a "Tasks Incomplete!"
notification is posted. This project models the four Kotlin files that hold that
logic and proves what they promise.

- `wrappers.dfy`: `Option`.
- `kotlin_text.dfy`: the Kotlin string operations the app relies on, written out.
  - Splitting on the "|||" delimiter as Kotlin's leftmost, non-overlapping scan; `joinToString`; replacing "|||" by "---".
  - `trim`/`isBlank`; `Boolean.toString`, `toBoolean`, `toBooleanStrictOrNull`; `%d` and `%02d`.
- `preferences.dfy`: the `SharedPreferences` file as a value with one map per value kind.
  - Each `edit() ... apply()` chain is a single update of that value.
- `task_store.dfy`: the `Task` record and the two-string task codec ("|||"-joined names and flags).
  - Both decoders: MainActivity's lenient one and TasksActivity's filtering, strict one.
  - The list edits as functions of the old list.
- `alarms.dfy`: the alarms registered with `AlarmManager`, keyed by `PendingIntent` request code.
  - Also holds the cancel and register passes both schedulers perform.
- `main_activity.dfy`: `MainActivity` as a class over the preferences, the task list and the alarms.
  - The daily reset check, loading and saving, add/remove/toggle/reset-all, and the fixed 17:00-23:00 schedule.
  - Also the receiver nested in `MainActivity`.
- `tasks_activity.dfy`: `TasksActivity` as a class, with its stricter loader.
- `settings_activity.dfy`: `SettingsActivity` as a class.
  - Loading and storing the reminder window and the spinner selection.
  - The time-picker callback and the `formatTime` labels.
  - The window scheduler with its minute-to-hour carry.
- `notification_receiver.dfy`: the top-level `NotificationReceiver`, which decides whether to post and what.

What is proved, in short:
- Round trips of the task codec. MainActivity's loader gives back what `saveTasks` wrote exactly when the list is empty or its names are storable (an if-and-only-if): no name holds the delimiter, no name but the last ends in a bar, and a lone task's name is not empty. So a name such as `a|` followed by another task does not come back. TasksActivity's loader gives back every list that is storable in that sense, has no empty name, and whose lone name (if it is alone) is not blank; `[Task("", false), Task("a", false)]`, for instance, comes back as the single task `a`.
- The daily reset:
  - It touches only the status string and the reset date.
  - It is idempotent.
  - It makes both loaders see the same names with every flag cleared.
- The window scheduler registers exactly the times of `WindowSlots`:
  - slot `k` is `k` frequencies after the start;
  - every slot lies inside the window;
  - one more frequency would pass the end;
  - the default window is MainActivity's fixed schedule.
- Rescheduling replaces a pass of at most 51 slots completely. A wider window leaves stale alarms behind (a concrete 08:00-22:00 every-15-minutes case).
- The time label `h:mm AM/PM` determines the time of day.
- The top-level receiver posts exactly when reminders are on, permission is granted and some task is open. The receiver nested in MainActivity does not read the reminders switch: it posts exactly when permission is granted and some task is open. Both notifications carry the open count and the open names in list order.

Behaviour of the app worth noting:
- The daily reset writes nothing (not even the reset date) when the names string is empty.
- When exact alarms are not allowed (Android 12 or later without the exact-alarm permission), SettingsActivity skips that slot; there is no inexact fallback.
- A non-positive frequency is not rejected; the scheduling loop would not end.
- SettingsActivity cancels only request codes 0..50, whatever the previous pass used.

`ParseTime` (reading a label back) and `WindowSlots` (the list of reminder times) are reference definitions introduced by the model. The source has neither; they state what the label and the loop mean.

## Model

| member | source | states |
|---|---|---|
| KotlinText.Split | app/src/main/java/com/example/dailydiscipline/MainActivity.kt:106 | splitting on the delimiter yields at least one token and no token contains the delimiter |
| KotlinText.JoinSplit | app/src/main/java/com/example/dailydiscipline/MainActivity.kt:106 | joining the tokens of any string with the delimiter rebuilds that string |
| KotlinText.SplitJoin | app/src/main/java/com/example/dailydiscipline/MainActivity.kt:123 | splitting a join with the delimiter gives back the tokens if and only if no token contains the delimiter and no token but the last ends in a bar |
| KotlinText.Join | app/src/main/java/com/example/dailydiscipline/MainActivity.kt:123-124 | `joinToString` with the delimiter: the tokens with the separator between neighbours, "" for none; JoinSplit and SplitJoin state when it inverts the split |
| KotlinText.ReplaceDelim | app/src/main/java/com/example/dailydiscipline/MainActivity.kt:133-134 | replacing the delimiter by "---" keeps the length and leaves no delimiter in the name |
| KotlinText.ReplaceIsSplitJoin | app/src/main/java/com/example/dailydiscipline/MainActivity.kt:134 | the replacement is the split of the name re-joined with "---" |
| KotlinText.ReplaceFixesClean | app/src/main/java/com/example/dailydiscipline/MainActivity.kt:134 | a name without the delimiter is unchanged, so the replacement is idempotent |
| KotlinText.TrimStart | app/src/main/java/com/example/dailydiscipline/MainActivity.kt:63 | the result is a suffix, the dropped prefix is whitespace and the result does not start with whitespace |
| KotlinText.TrimEnd | app/src/main/java/com/example/dailydiscipline/MainActivity.kt:63 | the result is a prefix, the dropped suffix is whitespace and the result does not end with whitespace |
| KotlinText.Trim | app/src/main/java/com/example/dailydiscipline/MainActivity.kt:63 | `trim()`: the leading and then the trailing whitespace dropped; TrimEmptyIffBlank states when the result is empty |
| KotlinText.TrimStartEmpty | app/src/main/java/com/example/dailydiscipline/TasksActivity.kt:41-42 | dropping leading whitespace leaves the empty string exactly when the input is blank |
| KotlinText.TrimEndEmpty | app/src/main/java/com/example/dailydiscipline/TasksActivity.kt:41-42 | dropping trailing whitespace leaves the empty string exactly when the input is blank |
| KotlinText.TrimEmptyIffBlank | app/src/main/java/com/example/dailydiscipline/TasksActivity.kt:41-42 | the trimmed input is empty exactly when the input is blank; otherwise it starts and ends with non-whitespace |
| KotlinText.BooleanTokensRoundTrip | app/src/main/java/com/example/dailydiscipline/TasksActivity.kt:77 | both parsers read back what `Boolean.toString` writes; the strict parser accepts exactly "true" and "false"; the lenient one accepts exactly the strings equal to "true" ignoring case |
| KotlinText.ParseLenient | app/src/main/java/com/example/dailydiscipline/MainActivity.kt:114 | `toBoolean()`: true for the four letters of "true" in any mix of cases; ParseLenientIgnoresCase states it |
| KotlinText.ParseLenientIgnoresCase | app/src/main/java/com/example/dailydiscipline/MainActivity.kt:114 | `toBoolean()` holds exactly for the strings equal to "true" ignoring case, and every other string reads as false |
| KotlinText.ParseStrict | app/src/main/java/com/example/dailydiscipline/TasksActivity.kt:77 | `toBooleanStrictOrNull()`: true for "true", false for "false", no value otherwise; BooleanTokensRoundTrip states it |
| KotlinText.NatToString | app/src/main/java/com/example/dailydiscipline/NotificationReciever.kt:57 | the decimal rendering of a count is a non-empty digit string without leading zero |
| KotlinText.NatToStringRoundTrip | app/src/main/java/com/example/dailydiscipline/NotificationReciever.kt:57 | reading the rendered count back gives the count |
| KotlinText.NatToStringInjective | app/src/main/java/com/example/dailydiscipline/NotificationReciever.kt:59 | distinct counts render differently |
| KotlinText.Pad2Minute | app/src/main/java/com/example/dailydiscipline/SettingsActivity.kt:132 | `%02d` of a minute 0..59 is two digits that read back as the minute |
| TaskStore.NonEmpty | app/src/main/java/com/example/dailydiscipline/TasksActivity.kt:68 | `filter { it.isNotEmpty() }` keeps at most the input's tokens, all of them non-empty, and keeps the whole input when no token is empty (NonEmptySingle and NonEmptyAppend pin it down exactly) |
| TaskStore.NonEmptyNoDelim | app/src/main/java/com/example/dailydiscipline/TasksActivity.kt:68 | filtering tokens that hold no delimiter leaves tokens that hold no delimiter |
| TaskStore.NonEmptySingle | app/src/main/java/com/example/dailydiscipline/TasksActivity.kt:68 | one token is kept exactly when it is non-empty |
| TaskStore.NonEmptyAppend | app/src/main/java/com/example/dailydiscipline/TasksActivity.kt:68 | the filter of a concatenation is the concatenation of the filters, so together with NonEmptySingle it keeps exactly the non-empty tokens in order |
| TaskStore.Added | app/src/main/java/com/example/dailydiscipline/MainActivity.kt:132-139 | adding keeps the old list as a prefix and appends one incomplete task whose name is the input split at every delimiter and re-joined with "---"; that name has the input's length, holds no delimiter and equals the input when it had none |
| TaskStore.Removed | app/src/main/java/com/example/dailydiscipline/MainActivity.kt:141-147 | removal at a valid index drops exactly that task and shifts the rest; an invalid index changes nothing |
| TaskStore.Toggled | app/src/main/java/com/example/dailydiscipline/MainActivity.kt:149-154 | toggling keeps all names and every other task, and sets the flag at a valid index |
| TaskStore.Cleared | app/src/main/java/com/example/dailydiscipline/MainActivity.kt:156-158 | reset-all keeps every name and leaves no task completed |
| TaskStore.ClearedIdempotent | app/src/main/java/com/example/dailydiscipline/MainActivity.kt:157 | resetting twice is resetting once |
| TaskStore.PairAllFalseClears | app/src/main/java/com/example/dailydiscipline/MainActivity.kt:84-85 | pairing names with enough "false" tokens gives the previous pairing with every flag cleared, for both decoders |
| TaskStore.IncompleteNames | app/src/main/java/com/example/dailydiscipline/NotificationReciever.kt:35-43 | the collected names are empty exactly when every task is completed, and each is the name of an incomplete task (IncompleteNamesSingle and IncompleteNamesAppend pin it down exactly) |
| TaskStore.IncompleteNamesSingle | app/src/main/java/com/example/dailydiscipline/NotificationReciever.kt:35-43 | one task contributes its name exactly when it is not completed |
| TaskStore.IncompleteNamesSnoc | app/src/main/java/com/example/dailydiscipline/NotificationReciever.kt:35-43 | a task appended to the list adds its name at the end of the collected names exactly when it is incomplete |
| TaskStore.IncompleteNamesAppend | app/src/main/java/com/example/dailydiscipline/NotificationReciever.kt:35-43 | the names collected from a concatenation are the two collections concatenated, so with IncompleteNamesSingle exactly the incomplete tasks' names in list order are collected |
| TaskStore.DecodeLenientShape | app/src/main/java/com/example/dailydiscipline/MainActivity.kt:99-117 | an empty names string loads nothing; otherwise one task per token in order, done exactly when the status token at that index reads as true ignoring case |
| TaskStore.EncodeNames | app/src/main/java/com/example/dailydiscipline/MainActivity.kt:123 | the names joined with the delimiter; StrictNamesRoundTrip and LenientRoundTrip state when they split back |
| TaskStore.EncodeStatuses | app/src/main/java/com/example/dailydiscipline/MainActivity.kt:124 | the flags written as "true"/"false" joined with the delimiter; StatusTokensRoundTrip states that they split back one per task |
| TaskStore.Saved | app/src/main/java/com/example/dailydiscipline/MainActivity.kt:122-130 | `saveTasks`: one edit puts both encoded strings; LenientRoundTrip and StrictRoundTrip state what the loaders then read |
| TaskStore.DecodeLenient | app/src/main/java/com/example/dailydiscipline/MainActivity.kt:99-117 | MainActivity's loader; DecodeLenientShape and LenientRoundTrip state what it loads |
| TaskStore.DecodeStrict | app/src/main/java/com/example/dailydiscipline/TasksActivity.kt:55-80 | TasksActivity's loader; DecodeStrictShape and StrictRoundTrip state what it loads |
| TaskStore.DecodeStrictShape | app/src/main/java/com/example/dailydiscipline/TasksActivity.kt:55-80 | a blank names string loads nothing; otherwise the non-empty tokens in order, done exactly when the status token at the filtered index is "true" |
| TaskStore.StatusTokensRoundTrip | app/src/main/java/com/example/dailydiscipline/MainActivity.kt:124 | the saved status string of a non-empty list is non-empty and splits back into one token per task |
| TaskStore.LenientRoundTrip | app/src/main/java/com/example/dailydiscipline/MainActivity.kt:99-130 | loading what `saveTasks` wrote gives back the list if and only if its names are storable |
| TaskStore.StrictRoundTrip | app/src/main/java/com/example/dailydiscipline/TasksActivity.kt:55-100 | a storable list of non-empty names (no delimiter, no bar ending a name but the last, a lone name not blank) loads back unchanged after `saveTasks` |
| TaskStore.StrictNamesRoundTrip | app/src/main/java/com/example/dailydiscipline/TasksActivity.kt:62-68 | the saved names string of a non-empty storable list is not blank and filters back to exactly its names |
| Alarms.CancelRange | app/src/main/java/com/example/dailydiscipline/MainActivity.kt:252-259 | cancelling a range of request codes removes exactly those codes and keeps every other alarm |
| Alarms.CancelCodes | app/src/main/java/com/example/dailydiscipline/SettingsActivity.kt:164-171 | the cancel loop over codes 0..hi leaves the alarms with exactly that range removed |
| Alarms.RegisterAll | app/src/main/java/com/example/dailydiscipline/SettingsActivity.kt:198-221 | code `k` holds slot `k` when the policy allows it; every other alarm is unchanged |
| Alarms.RegisterNext | app/src/main/java/com/example/dailydiscipline/SettingsActivity.kt:198-213 | registering one more slot under the next code updates only that code, and only when permitted |
| Alarms.RescheduleIdempotent | app/src/main/java/com/example/dailydiscipline/SettingsActivity.kt:164-202 | when every code used lies in the cancelled range, running a cancel-and-register pass twice leaves the same alarms as once |
| Alarms.StaleCodeSurvives | app/src/main/java/com/example/dailydiscipline/SettingsActivity.kt:164-171 | an alarm under a code beyond the cancelled range survives a later, shorter pass with its old time |
| NotificationReceiverKt.AlertCarriesCountAndNames | app/src/main/java/com/example/dailydiscipline/NotificationReciever.kt:54-59 | the title is "Tasks Incomplete!"; the short text is the open count in decimal followed by " task(s) remaining"; the long text repeats the count and ends with the open names joined by ", " |
| NotificationReceiverKt.AlertFor | app/src/main/java/com/example/dailydiscipline/NotificationReciever.kt:54-59 | the "Tasks Incomplete!" notification for the open names; AlertCarriesCountAndNames states its texts |
| NotificationReceiverKt.OnReceive | app/src/main/java/com/example/dailydiscipline/NotificationReciever.kt:15-73 | nothing when reminders are off; otherwise a notification exactly when permission is granted and the strict decoding has open tasks, built from those names |
| NotificationReceiverKt.ReceiverSeesSavedList | app/src/main/java/com/example/dailydiscipline/NotificationReciever.kt:27-43 | after a storable list is saved, the receiver collects exactly that list's open names in order |
| MainActivityKt.AllFalseStringTokens | app/src/main/java/com/example/dailydiscipline/MainActivity.kt:84-85 | the reset status string is non-empty and splits into exactly `count` tokens "false" |
| MainActivityKt.AllFalseString | app/src/main/java/com/example/dailydiscipline/MainActivity.kt:84-85 | `count` tokens "false" joined with the delimiter; AllFalseStringTokens states that it splits back into them |
| MainActivityKt.DailyReset | app/src/main/java/com/example/dailydiscipline/MainActivity.kt:77-92 | `checkDailyReset` as a change of the preferences; DailyResetEffect, DailyResetIdempotent and DailyResetClearsLoadedTasks state what it does |
| MainActivityKt.DailyResetEffect | app/src/main/java/com/example/dailydiscipline/MainActivity.kt:77-92 | same day or no names: nothing changes; else the reset date becomes today and names are kept, with one "false" per name token and no other entry changed |
| MainActivityKt.DailyResetIdempotent | app/src/main/java/com/example/dailydiscipline/MainActivity.kt:77-92 | checking twice on the same day is checking once |
| MainActivityKt.DailyResetClearsLoadedTasks | app/src/main/java/com/example/dailydiscipline/MainActivity.kt:80-89 | after a new-day reset both decoders load the same tasks as before with every flag cleared |
| MainActivityKt.FixedSlotsShape | app/src/main/java/com/example/dailydiscipline/MainActivity.kt:261-266 | the fixed schedule is 13 times from 17:00 to 23:00, 30 minutes apart, minutes 0 or 30 |
| MainActivityKt.FixedSlots | app/src/main/java/com/example/dailydiscipline/MainActivity.kt:261-266 | the 13 half-hour times 17:00 to 23:00 in code order; FixedSlotsShape states them |
| MainActivityKt.ReceiverOnReceive | app/src/main/java/com/example/dailydiscipline/MainActivity.kt:318-367 | the nested receiver posts exactly when permission is granted and the lenient decoding has open tasks, built from those names; no enabled check |
| MainActivityKt.MainActivity.OnCreate | app/src/main/java/com/example/dailydiscipline/MainActivity.kt:45-60 | start-up runs the reset check, then loads the list from the reset preferences, then reschedules the fixed alarms |
| MainActivityKt.MainActivity.constructor | app/src/main/java/com/example/dailydiscipline/MainActivity.kt:30-32 | a new activity holds the given preferences and alarms and an empty task list |
| MainActivityKt.MainActivity.CheckDailyReset | app/src/main/java/com/example/dailydiscipline/MainActivity.kt:77-92 | the preferences become the daily reset of the old ones |
| MainActivityKt.MainActivity.LoadTasks | app/src/main/java/com/example/dailydiscipline/MainActivity.kt:99-120 | the loop builds exactly the lenient decoding of the stored strings, and no loaded name holds the delimiter |
| MainActivityKt.MainActivity.SaveTasks | app/src/main/java/com/example/dailydiscipline/MainActivity.kt:122-130 | both strings are written in one edit from the current list |
| MainActivityKt.MainActivity.SubmitTask | app/src/main/java/com/example/dailydiscipline/MainActivity.kt:62-70 | a task is added, with the trimmed input, exactly when that is non-empty; otherwise nothing changes |
| MainActivityKt.MainActivity.AddTask | app/src/main/java/com/example/dailydiscipline/MainActivity.kt:132-139 | the list becomes the added list and is saved |
| MainActivityKt.MainActivity.RemoveTask | app/src/main/java/com/example/dailydiscipline/MainActivity.kt:141-147 | the list becomes the removed list; saved only when the index was valid |
| MainActivityKt.MainActivity.ToggleTask | app/src/main/java/com/example/dailydiscipline/MainActivity.kt:149-154 | the list becomes the toggled list; saved only when the index was valid |
| MainActivityKt.MainActivity.ResetAllTasks | app/src/main/java/com/example/dailydiscipline/MainActivity.kt:156-161 | the in-place loop clears every flag, keeps the preferences until the save, then saves |
| MainActivityKt.MainActivity.ScheduleNotifications | app/src/main/java/com/example/dailydiscipline/MainActivity.kt:248-316 | codes 0..12 are cancelled, then code `k` holds fixed slot `k` for every `k` |
| MainActivityKt.FixedRescheduleIdempotent | app/src/main/java/com/example/dailydiscipline/MainActivity.kt:251-315 | scheduling the fixed reminders twice leaves the same alarms as once |
| MainActivityKt.NewDayLoadsClearedTasks | app/src/main/java/com/example/dailydiscipline/MainActivity.kt:58-59 | on a new day the loaded tasks keep their names and none is completed |
| TasksActivityKt.TasksActivity.constructor | app/src/main/java/com/example/dailydiscipline/TasksActivity.kt:22-34 | start-up loads the strict decoding of the stored strings |
| TasksActivityKt.TasksActivity.LoadTasks | app/src/main/java/com/example/dailydiscipline/TasksActivity.kt:55-91 | the loop builds exactly the strict decoding; every loaded name is non-empty and holds no delimiter |
| TasksActivityKt.TasksActivity.SaveTasks | app/src/main/java/com/example/dailydiscipline/TasksActivity.kt:92-100 | both strings are written in one edit from the current list |
| TasksActivityKt.TasksActivity.SubmitTask | app/src/main/java/com/example/dailydiscipline/TasksActivity.kt:40-48 | a task is added, with the trimmed input, exactly when that is non-empty, and its name is then non-empty; otherwise nothing changes |
| TasksActivityKt.TasksActivity.AddTask | app/src/main/java/com/example/dailydiscipline/TasksActivity.kt:102-108 | the list becomes the added list and is saved |
| TasksActivityKt.TasksActivity.RemoveTask | app/src/main/java/com/example/dailydiscipline/TasksActivity.kt:110-116 | the list becomes the removed list; saved only when the index was valid |
| TasksActivityKt.TasksActivity.ToggleTask | app/src/main/java/com/example/dailydiscipline/TasksActivity.kt:118-123 | the list becomes the toggled list; saved only when the index was valid |
| TasksActivityKt.TasksActivity.ResetAllTasks | app/src/main/java/com/example/dailydiscipline/TasksActivity.kt:125-130 | the in-place loop clears every flag, then saves |
| SettingsActivityKt.IndexOfMinutes | app/src/main/java/com/example/dailydiscipline/SettingsActivity.kt:91 | `indexOfFirst`: the first entry with that many minutes, or -1 exactly when no entry has them |
| SettingsActivityKt.SpinnerFindsListedFrequency | app/src/main/java/com/example/dailydiscipline/SettingsActivity.kt:31-37 | 15, 30, 45, 60 and 120 minutes select entries 0..4; any other frequency is not found |
| SettingsActivityKt.FormatTimeRoundTrip | app/src/main/java/com/example/dailydiscipline/SettingsActivity.kt:125-133 | on a time of day the label shows an hour 1..12 and reads back as that hour and minute |
| SettingsActivityKt.FormatTime | app/src/main/java/com/example/dailydiscipline/SettingsActivity.kt:125-133 | `formatTime`: the 12-hour clock label `h:mm AM/PM`; FormatTimeRoundTrip and FormatTimeInjective state that it determines the time |
| SettingsActivityKt.FormatTimeInjective | app/src/main/java/com/example/dailydiscipline/SettingsActivity.kt:125-133 | distinct times of day get distinct labels |
| SettingsActivityKt.Carry | app/src/main/java/com/example/dailydiscipline/SettingsActivity.kt:228-231 | the carry keeps the linear minute value, brings the minute below 60, keeps it non-negative, and changes nothing when it is already below 60 |
| SettingsActivityKt.CarryMinutes | app/src/main/java/com/example/dailydiscipline/SettingsActivity.kt:228-231 | the carry loop ends with the same linear minute value and a minute below 60 |
| SettingsActivityKt.Advance | app/src/main/java/com/example/dailydiscipline/SettingsActivity.kt:226-231 | the next time is one frequency later and has a clock minute |
| SettingsActivityKt.WindowSlotsTimes | app/src/main/java/com/example/dailydiscipline/SettingsActivity.kt:181-185 | slot `k` lies `k` frequencies after the start and not after the end; no slots exactly when the start is after the end; one more frequency passes the end |
| SettingsActivityKt.WindowSlotsMinutes | app/src/main/java/com/example/dailydiscipline/SettingsActivity.kt:226-231 | every slot after the first has a minute 0..59 |
| SettingsActivityKt.WindowSlotsLength | app/src/main/java/com/example/dailydiscipline/SettingsActivity.kt:181-232 | a non-empty window holds one more slot than the whole frequencies that fit in it |
| SettingsActivityKt.DefaultWindowIsFixedSchedule | app/src/main/java/com/example/dailydiscipline/SettingsActivity.kt:25-29 | the default window (17:00 to 23:00 every 30 minutes) is exactly MainActivity's fixed schedule |
| SettingsActivityKt.WideWindowLeavesStaleAlarms | app/src/main/java/com/example/dailydiscipline/SettingsActivity.kt:163-171 | 08:00 to 22:00 every 15 minutes uses 57 codes, and codes 51..56 keep their old times after any later pass of at most 51 slots |
| SettingsActivityKt.NarrowWindowRescheduleIdempotent | app/src/main/java/com/example/dailydiscipline/SettingsActivity.kt:163-202 | a window of at most 51 slots scheduled twice leaves the same alarms as once |
| SettingsActivityKt.StoredSettingsReadBack | app/src/main/java/com/example/dailydiscipline/SettingsActivity.kt:145-152 | what `saveSettings` stores, `loadSettings` reads back, and the task entries are untouched |
| SettingsActivityKt.StoredSettings | app/src/main/java/com/example/dailydiscipline/SettingsActivity.kt:145-152 | the one edit of `saveSettings` over the six settings keys; StoredSettingsReadBack states what it stores |
| SettingsActivityKt.ExactPolicy | app/src/main/java/com/example/dailydiscipline/SettingsActivity.kt:205-213 | a slot is registered on Android below 12, or on 12 and later when exact alarms are allowed; ScheduleNotifications uses it as its registration policy |
| SettingsActivityKt.SettingsActivity.constructor | app/src/main/java/com/example/dailydiscipline/SettingsActivity.kt:25-53 | start-up loads every setting with its default and selects the spinner entry of the loaded frequency, or entry 0 |
| SettingsActivityKt.SettingsActivity.LoadSettings | app/src/main/java/com/example/dailydiscipline/SettingsActivity.kt:73-80 | each field reads its key with defaults on, 17:00, 23:00 and 30 |
| SettingsActivityKt.SettingsActivity.SetupSpinner | app/src/main/java/com/example/dailydiscipline/SettingsActivity.kt:82-94 | the selection moves to the entry of the current frequency when one exists and stays otherwise |
| SettingsActivityKt.SettingsActivity.OnFrequencySelected | app/src/main/java/com/example/dailydiscipline/SettingsActivity.kt:96-99 | the picked entry's minutes become the frequency; it is positive and the spinner finds it again |
| SettingsActivityKt.SettingsActivity.OnTimePicked | app/src/main/java/com/example/dailydiscipline/SettingsActivity.kt:108-115 | the picked time replaces the start or the end, and the other is unchanged |
| SettingsActivityKt.SettingsActivity.SaveSettings | app/src/main/java/com/example/dailydiscipline/SettingsActivity.kt:135-158 | saved exactly when start is before end; if not, nothing changes; if so, one edit stores the settings and the alarms are rescheduled |
| SettingsActivityKt.SettingsActivity.ScheduleNotifications | app/src/main/java/com/example/dailydiscipline/SettingsActivity.kt:160-233 | codes 0..50 are cancelled; when the switch is on, code `k` holds window slot `k` wherever the exact-alarm policy allows it |

## Left out

- Views and widgets are not modelled: `refreshTaskViews`, `createTaskView`, the checkbox colours, `updateTimeButtons` (the labels are modelled as `FormatTime`), Toasts and `finish()`.
- `getToday` and `Calendar` are not modelled. The date is a parameter, and an alarm is its time of day only; the today-or-tomorrow instant is left out.
- `createNotificationChannel`, `requestNotificationPermission` and the permission check are not modelled; granted permission is a parameter.
- Android's version test and `canScheduleExactAlarms` are parameters of SettingsActivity's scheduler.
- The asynchrony of `apply()` is not modelled; each edit is committed at once.
- The empty `BootReceiver`, which has no behaviour, is left out.
- The `try`/`catch` blocks are left out. In `TasksActivity.loadTasks` and the top-level receiver, `split`, `filter` and `getOrNull` throw nothing, so the catch branches cannot be reached. The `SecurityException` around `setRepeating` is not modelled either.
- The values of `NOTIF_ENABLED_KEY`, `START_HOUR_KEY`, `START_MINUTE_KEY`, `END_HOUR_KEY`, `END_MINUTE_KEY` and `FREQUENCY_KEY` are not part of this model. `MainActivity.kt` as given does not define them, so distinct stand-in strings are used.
- Task objects are values. The identity of the `Task` objects and the aliasing between the list and its views are left out.
- Android calls `onItemSelected` by itself after `setSelection`. The model does not chain that call into `setupSpinner`; it is the separate method `OnFrequencySelected`.
- SettingsActivityKt.SettingsActivity.ScheduleNotifications: requires a positive frequency when the switch is on and the start is not after the end. With zero or a negative frequency the source's loop never ends, and that non-termination is not modelled.
- SettingsActivityKt.SettingsActivity.SaveSettings: requires a positive frequency when the switch is on and the window is valid, for the same reason.
- TasksActivity's `loadTasks` clears the field list and appends to it. The model builds the list in a local sequence and assigns the field once; nothing observes the list in between.
- Locale-dependent digits in `String.format` are not modelled; ASCII digits are used.
- Kotlin's `Int` is 32 bits wide; the model's integers are unbounded. This concerns the hours and minutes, `requestCode++` and `currentMinute += frequencyMinutes`. The times come from the time picker and the frequencies from the spinner, so these values stay far below the 32-bit range and wrap-around cannot happen.
