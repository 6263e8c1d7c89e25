/**
  MainActivity.kt: the revision of the main screen that holds the task list,
  resets completion once per calendar day, schedules the fixed 17:00-23:00
  reminders and carries its own nested reminder receiver.
*/
module MainActivityKt {
  import opened Wrappers
  import opened KotlinText
  import opened Preferences
  import opened TaskStore
  import opened Alarms
  import opened NotificationReceiverKt

  // ---------------------------------------------------------------------------
  // checkDailyReset
  // ---------------------------------------------------------------------------

  /** `(1..count).joinToString("|||") { "false" }`. */
  function AllFalseString(count: nat): string
  {
    Join(AllFalse(count), Delim)
  }

  /**
    `checkDailyReset` as a transition of the preferences: on a new day with a
    non-empty names string, one edit writes an all-"false" status string with
    as many tokens as the names string and records `today`; otherwise nothing
    is written.
  */
  function DailyReset(p: Prefs, today: string): Prefs
  {
    var lastReset := GetString(p, LastResetKey, "");
    if lastReset == today then p
    else
      var names := GetString(p, TaskNamesKey, "");
      if names == "" then p
      else PutString(PutString(p, TaskStatusKey, AllFalseString(|Split(names)|)), LastResetKey, today)
  }

  /** The all-"false" string splits back into exactly `count` tokens "false". */
  lemma AllFalseStringTokens(count: nat)
    requires count >= 1
    ensures AllFalseString(count) != ""
    ensures Split(AllFalseString(count)) == AllFalse(count)
  {
    var fs := AllFalse(count);
    assert forall k :: 0 <= k < |fs| ==> NoDelim(fs[k]) && !EndsWithBar(fs[k]);
    SplitJoin(fs);
    JoinNonEmpty(fs);
  }

  /**
    What a daily reset does: on the same day, or with no task names, nothing;
    otherwise `lastReset` becomes `today`, the names string is untouched, the
    status string has one "false" per name token, and no other entry changes.
  */
  lemma DailyResetEffect(p: Prefs, today: string)
    ensures var names := GetString(p, TaskNamesKey, "");
      var r := DailyReset(p, today);
      && (GetString(p, LastResetKey, "") == today || names == "" ==> r == p)
      && (GetString(p, LastResetKey, "") != today && names != "" ==>
            && GetString(r, LastResetKey, "") == today
            && GetString(r, TaskNamesKey, "") == names
            && Split(GetString(r, TaskStatusKey, "")) == AllFalse(|Split(names)|)
            && r.ints == p.ints && r.bools == p.bools
            && forall k :: k != TaskStatusKey && k != LastResetKey ==> GetString(r, k, "") == GetString(p, k, ""))
  {
    var names := GetString(p, TaskNamesKey, "");
    if GetString(p, LastResetKey, "") != today && names != "" {
      AllFalseStringTokens(|Split(names)|);
    }
  }

  /** Running the reset check twice on the same day is running it once. */
  lemma DailyResetIdempotent(p: Prefs, today: string)
    ensures DailyReset(DailyReset(p, today), today) == DailyReset(p, today)
  {
  }

  /**
    After a reset, both loaders see the same names as before with every flag
    cleared.
  */
  lemma DailyResetClearsLoadedTasks(p: Prefs, today: string)
    requires GetString(p, LastResetKey, "") != today
    ensures var r := DailyReset(p, today);
      var n := GetString(p, TaskNamesKey, "");
      && DecodeLenient(n, GetString(r, TaskStatusKey, "")) == Cleared(DecodeLenient(n, GetString(p, TaskStatusKey, "")))
      && DecodeStrict(n, GetString(r, TaskStatusKey, "")) == Cleared(DecodeStrict(n, GetString(p, TaskStatusKey, "")))
  {
    var n := GetString(p, TaskNamesKey, "");
    if n != "" {
      var count := |Split(n)|;
      AllFalseStringTokens(count);
      var r := DailyReset(p, today);
      var s := GetString(r, TaskStatusKey, "");
      assert StatusTokensOrDefault(s, count) == AllFalse(count);
      var before := GetString(p, TaskStatusKey, "");
      PairAllFalseClears(Split(n), StatusTokensOrDefault(before, count), count);
      var kept := NonEmpty(Split(n));
      PairAllFalseClears(kept, StatusTokensOrDefault(before, |kept|), count);
    }
  }

  // ---------------------------------------------------------------------------
  // The fixed reminder schedule
  // ---------------------------------------------------------------------------

  /** 17:00, 17:30, ..., 22:30, 23:00: request code `k` fires at slot `k`. */
  function FixedSlots(): seq<TimeOfDay>
  {
    seq(13, k requires 0 <= k < 13 => TimeOfDay(17 + k / 2, (k % 2) * 30))
  }

  /**
    The fixed schedule has 13 slots from 17:00 to 23:00, each 30 minutes after
    the previous one, with minutes 0 or 30.
  */
  lemma FixedSlotsShape()
    ensures |FixedSlots()| == 13
    ensures FixedSlots()[0] == TimeOfDay(17, 0) && FixedSlots()[12] == TimeOfDay(23, 0)
    ensures forall k :: 0 < k < 13 ==> FixedSlots()[k].Total() == FixedSlots()[k - 1].Total() + 30
    ensures forall k :: 0 <= k < 13 ==> FixedSlots()[k].Total() == 17 * 60 + 30 * k
    ensures forall k :: 0 <= k < 13 ==> FixedSlots()[k].minute in {0, 30}
  {
    forall k | 0 <= k < 13 ensures FixedSlots()[k].Total() == 17 * 60 + 30 * k {
      var t := FixedSlots()[k];
      assert t.hour * 60 + t.minute == (17 + k / 2) * 60 + (k % 2) * 30;
    }
  }

  // ---------------------------------------------------------------------------
  // The nested NotificationReceiver
  // ---------------------------------------------------------------------------

  /**
    `MainActivity.NotificationReceiver.onReceive`: no enabled check; nothing for
    an empty names string; otherwise the incomplete tasks as MainActivity loads
    them, and a notification when there is one and permission is granted.
  */
  method ReceiverOnReceive(p: Prefs, permissionGranted: bool) returns (posted: Option<Notification>)
    ensures var incomplete := IncompleteNames(DecodeLenient(GetString(p, TaskNamesKey, ""), GetString(p, TaskStatusKey, "")));
      && (posted.Some? <==> permissionGranted && incomplete != [])
      && (posted.Some? ==> posted.value == AlertFor(incomplete))
  {
    var namesString := GetString(p, TaskNamesKey, "");
    var statusString := GetString(p, TaskStatusKey, "");
    if namesString == "" {
      return None;
    }
    var names := Split(namesString);
    var statuses := if statusString != "" then Split(statusString) else AllFalse(|names|);
    ghost var loaded := PairLenient(names, statuses);
    assert loaded == DecodeLenient(namesString, statusString);
    var incompleteTasks: seq<string> := [];
    var i := 0;
    while i < |names|
      invariant 0 <= i <= |names| == |loaded|
      invariant incompleteTasks == IncompleteNames(loaded[..i])
    {
      var completed := if i < |statuses| then ParseLenient(statuses[i]) else false;
      assert loaded[i] == Task(names[i], completed);
      if !completed {
        incompleteTasks := incompleteTasks + [names[i]];
      }
      assert loaded[..i + 1][..i] == loaded[..i];
      i := i + 1;
    }
    assert loaded[..i] == loaded;
    posted := None;
    if incompleteTasks != [] {
      var notification := AlertFor(incompleteTasks);
      if permissionGranted {
        posted := Some(notification);
      }
    }
  }

  // ---------------------------------------------------------------------------
  // The activity
  // ---------------------------------------------------------------------------

  class MainActivity {
    /** The shared preferences file, as last committed. */
    var prefs: Prefs
    /** `private val tasks = mutableListOf<Task>()`. */
    var tasks: seq<Task>
    /** The alarms registered for the nested receiver, by request code. */
    var alarms: Registry

    /** No held task name contains the delimiter. */
    ghost predicate Valid()
      reads this
    {
      forall k :: 0 <= k < |tasks| ==> NoDelim(tasks[k].name)
    }

    constructor (p: Prefs, registered: Registry)
      ensures prefs == p && tasks == [] && alarms == registered && Valid()
    {
      prefs, tasks, alarms := p, [], registered;
    }

    /** `onCreate` without the views: reset check, load, reschedule. */
    method OnCreate(today: string)
      modifies this
      ensures prefs == DailyReset(old(prefs), today)
      ensures tasks == DecodeLenient(GetString(prefs, TaskNamesKey, ""), GetString(prefs, TaskStatusKey, ""))
      ensures alarms == RegisterAll(CancelRange(old(alarms), 0, 12), FixedSlots(), Always)
      ensures Valid()
    {
      CheckDailyReset(today);
      LoadTasks();
      ScheduleNotifications();
    }

    method CheckDailyReset(today: string)
      modifies this`prefs
      ensures prefs == DailyReset(old(prefs), today)
    {
      var lastReset := GetString(prefs, LastResetKey, "");
      if lastReset != today {
        var names := GetString(prefs, TaskNamesKey, "");
        if names != "" {
          var count := |Split(names)|;
          var allFalse := AllFalseString(count);
          prefs := PutString(PutString(prefs, TaskStatusKey, allFalse), LastResetKey, today);
        }
      }
    }

    /** `loadTasks`: clear, then append one task per name token. */
    method LoadTasks()
      modifies this`tasks
      ensures tasks == DecodeLenient(GetString(prefs, TaskNamesKey, ""), GetString(prefs, TaskStatusKey, ""))
      ensures Valid()
    {
      tasks := [];
      var namesString := GetString(prefs, TaskNamesKey, "");
      var statusString := GetString(prefs, TaskStatusKey, "");
      if namesString != "" {
        var names := Split(namesString);
        var statuses := if statusString != "" then Split(statusString) else AllFalse(|names|);
        ghost var loaded := PairLenient(names, statuses);
        var i := 0;
        while i < |names|
          invariant 0 <= i <= |names|
          invariant tasks == loaded[..i]
        {
          var completed := if i < |statuses| then ParseLenient(statuses[i]) else false;
          tasks := tasks + [Task(names[i], completed)];
          i := i + 1;
        }
        assert tasks == loaded;
      }
    }

    method SaveTasks()
      modifies this`prefs
      ensures prefs == Saved(old(prefs), tasks)
    {
      var namesString := EncodeNames(tasks);
      var statusString := EncodeStatuses(tasks);
      prefs := PutString(PutString(prefs, TaskNamesKey, namesString), TaskStatusKey, statusString);
    }

    /** The add button: trim, refuse an empty name, otherwise add it. */
    method SubmitTask(input: string) returns (added: bool)
      requires Valid()
      modifies this`tasks, this`prefs
      ensures added == (Trim(input) != "")
      ensures added ==> tasks == Added(old(tasks), Trim(input)) && prefs == Saved(old(prefs), tasks)
      ensures !added ==> tasks == old(tasks) && prefs == old(prefs)
      ensures Valid()
    {
      var taskName := Trim(input);
      added := taskName != "";
      if added {
        AddTask(taskName);
      }
    }

    /** `addTask`: replace "|||" by "---", append an incomplete task, save. */
    method AddTask(name: string)
      requires Valid()
      modifies this`tasks, this`prefs
      ensures tasks == Added(old(tasks), name)
      ensures prefs == Saved(old(prefs), tasks)
      ensures Valid()
    {
      var safeName := ReplaceDelim(name);
      tasks := tasks + [Task(safeName, false)];
      SaveTasks();
    }

    method RemoveTask(index: int)
      requires Valid()
      modifies this`tasks, this`prefs
      ensures tasks == Removed(old(tasks), index)
      ensures prefs == if 0 <= index < |old(tasks)| then Saved(old(prefs), tasks) else old(prefs)
      ensures Valid()
    {
      if 0 <= index < |tasks| {
        tasks := tasks[..index] + tasks[index + 1..];
        SaveTasks();
      }
    }

    method ToggleTask(index: int, completed: bool)
      requires Valid()
      modifies this`tasks, this`prefs
      ensures tasks == Toggled(old(tasks), index, completed)
      ensures prefs == if 0 <= index < |old(tasks)| then Saved(old(prefs), tasks) else old(prefs)
      ensures Valid()
    {
      if 0 <= index < |tasks| {
        tasks := tasks[index := tasks[index].(completed := completed)];
        SaveTasks();
      }
    }

    /** `resetAllTasks`: clear every flag in place, then save. */
    method ResetAllTasks()
      requires Valid()
      modifies this`tasks, this`prefs
      ensures tasks == Cleared(old(tasks))
      ensures prefs == Saved(old(prefs), tasks)
      ensures Valid()
    {
      var i := 0;
      while i < |tasks|
        invariant 0 <= i <= |tasks| == |old(tasks)|
        invariant forall k :: 0 <= k < i ==> tasks[k] == old(tasks)[k].(completed := false)
        invariant forall k :: i <= k < |tasks| ==> tasks[k] == old(tasks)[k]
        invariant prefs == old(prefs)
      {
        tasks := tasks[i := tasks[i].(completed := false)];
        i := i + 1;
      }
      assert tasks == Cleared(old(tasks));
      SaveTasks();
    }

    /**
      `scheduleNotifications`: cancel codes 0..12, then register 17:00, 17:30,
      ..., 23:00 under codes 0, 1, 2, ... (every branch of the version check
      registers the same repeating alarm).
    */
    method ScheduleNotifications()
      modifies this`alarms
      ensures alarms == RegisterAll(CancelRange(old(alarms), 0, 12), FixedSlots(), Always)
    {
      alarms := CancelCodes(alarms, 12);
      ghost var base := alarms;
      ghost var emitted: seq<TimeOfDay> := [];
      var requestCode := 0;
      for hour := 17 to 24
        invariant requestCode == if hour == 24 then 13 else 2 * (hour - 17)
        invariant emitted == FixedSlots()[..requestCode]
        invariant alarms == RegisterAll(base, emitted, Always)
      {
        var minutes := [0, 30];
        for j := 0 to 2
          invariant requestCode == 2 * (hour - 17) + (if hour == 23 && j == 2 then 1 else j)
          invariant emitted == FixedSlots()[..requestCode]
          invariant alarms == RegisterAll(base, emitted, Always)
        {
          var minute := minutes[j];
          if hour == 23 && minute == 30 {
            continue;
          }
          RegisterNext(base, emitted, TimeOfDay(hour, minute), Always);
          assert FixedSlots()[requestCode] == TimeOfDay(hour, minute);
          alarms := alarms[requestCode := TimeOfDay(hour, minute)];
          emitted := emitted + [TimeOfDay(hour, minute)];
          requestCode := requestCode + 1;
        }
      }
      assert emitted == FixedSlots();
    }
  }

  /**
    Rescheduling the fixed reminders replaces the previous pass completely:
    running the schedule twice leaves the same alarms as running it once.
  */
  lemma FixedRescheduleIdempotent(r: Registry)
    ensures RegisterAll(CancelRange(RegisterAll(CancelRange(r, 0, 12), FixedSlots(), Always), 0, 12), FixedSlots(), Always)
         == RegisterAll(CancelRange(r, 0, 12), FixedSlots(), Always)
  {
    RescheduleIdempotent(r, 0, 12, FixedSlots(), Always);
  }

  /**
    A new day on start-up: when the last reset was another day and tasks
    exist, every task MainActivity loads is incomplete and keeps its name.
  */
  lemma NewDayLoadsClearedTasks(p: Prefs, today: string)
    requires GetString(p, LastResetKey, "") != today
    ensures var r := DailyReset(p, today);
      var loaded := DecodeLenient(GetString(r, TaskNamesKey, ""), GetString(r, TaskStatusKey, ""));
      && Names(loaded) == Names(DecodeLenient(GetString(p, TaskNamesKey, ""), GetString(p, TaskStatusKey, "")))
      && forall k :: 0 <= k < |loaded| ==> !loaded[k].completed
  {
    DailyResetClearsLoadedTasks(p, today);
  }
}
