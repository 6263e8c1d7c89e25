/**
  SettingsActivity.kt: the screen that edits the reminder window (start and end
  time of day), the reminder frequency and the on/off switch, stores them in
  the shared preferences and reschedules the reminder alarms across the
  window.
*/
module SettingsActivityKt {
  import opened Wrappers
  import opened KotlinText
  import opened Preferences
  import opened Alarms
  import MainActivityKt

  // ---------------------------------------------------------------------------
  // The frequency spinner
  // ---------------------------------------------------------------------------

  /** The spinner's entries: label and minutes between reminders. */
  const FrequencyOptions: seq<(string, int)> := [
    ("Every 15 minutes", 15),
    ("Every 30 minutes", 30),
    ("Every 45 minutes", 45),
    ("Every 1 hour", 60),
    ("Every 2 hours", 120)
  ]

  /** `indexOfFirst { it.second == minutes }`: the first entry with that many minutes, or -1. */
  function IndexOfMinutes(options: seq<(string, int)>, minutes: int): (i: int)
    ensures -1 <= i < |options|
    ensures i >= 0 ==> options[i].1 == minutes && forall k :: 0 <= k < i ==> options[k].1 != minutes
    ensures i == -1 <==> forall k :: 0 <= k < |options| ==> options[k].1 != minutes
  {
    if |options| == 0 then -1
    else if options[0].1 == minutes then 0
    else
      var j := IndexOfMinutes(options[1..], minutes);
      if j < 0 then -1 else j + 1
  }

  /**
    The spinner finds a stored frequency exactly when it is one of its five
    values, and then selects the entry that carries it.
  */
  lemma SpinnerFindsListedFrequency(minutes: int)
    ensures IndexOfMinutes(FrequencyOptions, minutes) ==
      if minutes == 15 then 0 else if minutes == 30 then 1 else if minutes == 45 then 2
      else if minutes == 60 then 3 else if minutes == 120 then 4 else -1
  {
    var i := IndexOfMinutes(FrequencyOptions, minutes);
    if minutes == 15 {
      assert FrequencyOptions[0].1 == minutes;
    } else if minutes == 30 {
      assert FrequencyOptions[1].1 == minutes;
    } else if minutes == 45 {
      assert FrequencyOptions[2].1 == minutes;
    } else if minutes == 60 {
      assert FrequencyOptions[3].1 == minutes;
    } else if minutes == 120 {
      assert FrequencyOptions[4].1 == minutes;
    }
  }

  // ---------------------------------------------------------------------------
  // formatTime
  // ---------------------------------------------------------------------------

  /** The hour of the 12-hour clock: 0 shows as 12, afternoon hours lose 12. */
  function Hour12(hour: int): int
  {
    if hour == 0 then 12 else if hour > 12 then hour - 12 else hour
  }

  function AmPm(hour: int): string
  {
    if hour >= 12 then "PM" else "AM"
  }

  /** `String.format("%d:%02d %s", hour12, minute, amPm)`. */
  function FormatTime(hour: int, minute: int): string
  {
    IntToString(Hour12(hour)) + ":" + Pad2(minute) + " " + AmPm(hour)
  }

  /** The hour of the day a 12-hour clock reading stands for. */
  function ClockHour(hour12: int, pm: bool): int
  {
    if pm then (if hour12 == 12 then 12 else hour12 + 12)
    else (if hour12 == 12 then 0 else hour12)
  }

  /** Reads a button label of the form "h:mm AM" / "h:mm PM" back as hour and minute. */
  function ParseTime(s: string): Option<(int, int)>
  {
    if |s| < 7 then None
    else ParseLabel(s[..|s| - 6], s[|s| - 6], s[|s| - 5..|s| - 3], s[|s| - 3..])
  }

  /** A label cut into its hour digits, separator, minute digits and marker. */
  function ParseLabel(hourText: string, separator: char, minuteText: string, suffix: string): Option<(int, int)>
  {
    if separator != ':' || !IsDigits(hourText) || !IsDigits(minuteText) then None
    else if suffix == " AM" || suffix == " PM" then
      Some((ClockHour(ParseDigits(hourText), suffix == " PM"), ParseDigits(minuteText)))
    else None
  }

  /** Where `ParseTime` cuts a label, an assembled label has its parts. */
  lemma LabelSlices(hourText: string, minuteText: string, suffix: string)
    requires |minuteText| == 2 && |suffix| == 3
    ensures var s := hourText + ":" + minuteText + suffix;
      && |s| == |hourText| + 6
      && s[..|s| - 6] == hourText && s[|s| - 6] == ':'
      && s[|s| - 5..|s| - 3] == minuteText && s[|s| - 3..] == suffix
  {
    var tail := ":" + minuteText + suffix;
    var s := hourText + tail;
    assert s == hourText + ":" + minuteText + suffix;
    assert s[|hourText|..] == tail;
    assert tail[1..3] == minuteText && tail[3..] == suffix;
  }

  /** A label assembled from an hour in digits, two minute digits and a marker reads back as its parts. */
  lemma ParseTimeParts(hourText: string, minuteText: string, marker: string)
    requires |hourText| >= 1 && IsDigits(hourText)
    requires |minuteText| == 2 && IsDigits(minuteText)
    requires marker == "AM" || marker == "PM"
    ensures ParseTime(hourText + ":" + minuteText + " " + marker)
         == Some((ClockHour(ParseDigits(hourText), marker == "PM"), ParseDigits(minuteText)))
  {
    var suffix := " " + marker;
    assert hourText + ":" + minuteText + " " + marker == hourText + ":" + minuteText + suffix;
    LabelSlices(hourText, minuteText, suffix);
    if marker == "PM" {
      assert suffix == " PM";
    } else {
      assert suffix == " AM" && suffix != " PM" by {
        assert suffix[1] == 'A';
      }
    }
  }

  /**
    On a time of the 24-hour day the label shows an hour of 1..12, and it
    determines the time: reading it back gives the hour and minute.
  */
  lemma FormatTimeRoundTrip(hour: int, minute: int)
    requires 0 <= hour < 24 && 0 <= minute < 60
    ensures 1 <= Hour12(hour) <= 12
    ensures ParseTime(FormatTime(hour, minute)) == Some((hour, minute))
  {
    Pad2Minute(minute);
    NatToStringRoundTrip(Hour12(hour));
    ParseTimeParts(NatToString(Hour12(hour)), Pad2(minute), AmPm(hour));
  }

  /** Distinct times of day get distinct labels. */
  lemma FormatTimeInjective(h1: int, m1: int, h2: int, m2: int)
    requires 0 <= h1 < 24 && 0 <= m1 < 60 && 0 <= h2 < 24 && 0 <= m2 < 60
    requires FormatTime(h1, m1) == FormatTime(h2, m2)
    ensures h1 == h2 && m1 == m2
  {
    FormatTimeRoundTrip(h1, m1);
    FormatTimeRoundTrip(h2, m2);
  }

  // ---------------------------------------------------------------------------
  // The reminder window
  // ---------------------------------------------------------------------------

  /**
    The inner loop `while (currentMinute >= 60) { currentMinute -= 60; currentHour++ }`:
    the same instant, with the minute brought below 60.
  */
  function Carry(t: TimeOfDay): (c: TimeOfDay)
    ensures c.Total() == t.Total()
    ensures c.minute < 60
    ensures 0 <= t.minute ==> 0 <= c.minute
    ensures t.minute < 60 ==> c == t
    decreases t.minute
  {
    if t.minute >= 60 then Carry(TimeOfDay(t.hour + 1, t.minute - 60)) else t
  }

  /**
    The inner loop of the scheduler, run on the minute after adding the
    frequency: whole hours move from the minute to the hour.
  */
  method CarryMinutes(hour: int, minute: int) returns (h: int, m: int)
    ensures TimeOfDay(h, m) == Carry(TimeOfDay(hour, minute))
    ensures h * 60 + m == hour * 60 + minute && m < 60
  {
    h, m := hour, minute;
    while m >= 60
      invariant Carry(TimeOfDay(h, m)) == Carry(TimeOfDay(hour, minute))
      decreases m
    {
      m := m - 60;
      h := h + 1;
    }
  }

  /** The next reminder time: `currentMinute += frequencyMinutes`, then carry. */
  function Advance(t: TimeOfDay, frequency: int): (a: TimeOfDay)
    ensures a.Total() == t.Total() + frequency
    ensures 0 <= t.minute && 0 <= frequency ==> 0 <= a.minute < 60
  {
    Carry(TimeOfDay(t.hour, t.minute + frequency))
  }

  /**
    The times the scheduler visits from `t` on, while their linear minute
    value does not pass `endTotal`. Request code `k` goes with element `k`.
  */
  function WindowSlots(t: TimeOfDay, endTotal: int, frequency: int): seq<TimeOfDay>
    requires frequency > 0 || t.Total() > endTotal
    decreases endTotal - t.Total()
  {
    if t.Total() > endTotal then [] else [t] + WindowSlots(Advance(t, frequency), endTotal, frequency)
  }

  /**
    Slot `k` lies `k` frequencies after the start and not after the end, and
    one more frequency would pass the end.
  */
  lemma {:induction false} WindowSlotsTimes(t: TimeOfDay, endTotal: int, frequency: int)
    requires frequency > 0 || t.Total() > endTotal
    ensures var s := WindowSlots(t, endTotal, frequency);
      && (forall k :: 0 <= k < |s| ==> s[k].Total() == t.Total() + k * frequency && s[k].Total() <= endTotal)
      && (s == [] <==> t.Total() > endTotal)
      && (s != [] ==> s[0] == t && t.Total() + |s| * frequency > endTotal)
    decreases endTotal - t.Total()
  {
    if t.Total() <= endTotal {
      var a := Advance(t, frequency);
      WindowSlotsTimes(a, endTotal, frequency);
      var s := WindowSlots(t, endTotal, frequency);
      var rest := WindowSlots(a, endTotal, frequency);
      assert s == [t] + rest;
      forall k | 1 <= k < |s| ensures s[k].Total() == t.Total() + k * frequency {
        assert s[k] == rest[k - 1];
        MulPred(k, frequency);
      }
      if rest == [] {
        assert a.Total() > endTotal;
      } else {
        MulPred(|s|, frequency);
      }
    }
  }

  /**
    From a start whose minute is not negative, every reminder after the first
    has a minute of the clock, 0..59.
  */
  lemma {:induction false} WindowSlotsMinutes(t: TimeOfDay, endTotal: int, frequency: int)
    requires frequency > 0 && 0 <= t.minute
    ensures forall k :: 0 < k < |WindowSlots(t, endTotal, frequency)| ==>
      0 <= WindowSlots(t, endTotal, frequency)[k].minute < 60
    decreases endTotal - t.Total()
  {
    if t.Total() <= endTotal {
      var a := Advance(t, frequency);
      WindowSlotsMinutes(a, endTotal, frequency);
      var s := WindowSlots(t, endTotal, frequency);
      var rest := WindowSlots(a, endTotal, frequency);
      assert 0 <= a.minute < 60;
      assert forall j :: 0 < j < |rest| ==> 0 <= rest[j].minute < 60;
      assert s == [t] + rest;
      forall k | 0 < k < |s| ensures 0 <= s[k].minute < 60 {
        assert s[k] == rest[k - 1];
        if k == 1 {
          assert rest[0] == a;
        } else {
          assert 0 < k - 1 < |rest|;
        }
      }
    }
  }

  lemma MulPred(k: int, f: int)
    ensures k * f == (k - 1) * f + f
  {
  }

  /** A non-empty window holds as many reminders as whole frequencies fit in it, plus one. */
  lemma WindowSlotsLength(t: TimeOfDay, endTotal: int, frequency: int)
    requires frequency > 0 && t.Total() <= endTotal
    ensures var n := |WindowSlots(t, endTotal, frequency)|;
      n >= 1 && (n - 1) * frequency <= endTotal - t.Total() < n * frequency
  {
    WindowSlotsTimes(t, endTotal, frequency);
    var s := WindowSlots(t, endTotal, frequency);
    assert s[|s| - 1].Total() == t.Total() + (|s| - 1) * frequency;
  }

  /** Reminder `k` of a window: its linear minute value and, from a clock-time start, its clock minute. */
  lemma WindowSlotAt(t: TimeOfDay, endTotal: int, frequency: int, k: int)
    requires frequency > 0 && 0 <= t.minute < 60
    requires 0 <= k < |WindowSlots(t, endTotal, frequency)|
    ensures WindowSlots(t, endTotal, frequency)[k].Total() == t.Total() + k * frequency
    ensures 0 <= WindowSlots(t, endTotal, frequency)[k].minute < 60
  {
    WindowSlotsTimes(t, endTotal, frequency);
    WindowSlotsMinutes(t, endTotal, frequency);
  }

  /** One step of the scheduler: a time inside the window is followed by the window from the next time. */
  lemma WindowStep(emitted: seq<TimeOfDay>, t: TimeOfDay, endTotal: int, frequency: int)
    requires frequency > 0 && t.Total() <= endTotal
    ensures emitted + WindowSlots(t, endTotal, frequency)
         == (emitted + [t]) + WindowSlots(Advance(t, frequency), endTotal, frequency)
  {
  }

  /** Two clock times with minutes 0..59 and the same linear minute value are the same time. */
  lemma SameClockTime(a: TimeOfDay, b: TimeOfDay)
    requires 0 <= a.minute < 60 && 0 <= b.minute < 60 && a.Total() == b.Total()
    ensures a == b
  {
    assert (a.hour - b.hour) * 60 == b.minute - a.minute;
  }

  /** The default window, 17:00 to 23:00 every 30 minutes, holds 13 reminders. */
  lemma DefaultWindowLength(t: TimeOfDay, endTotal: int, frequency: int)
    requires t == TimeOfDay(17, 0) && endTotal == 23 * 60 && frequency == 30
    ensures |WindowSlots(t, endTotal, frequency)| == 13
  {
    var s := WindowSlots(t, endTotal, frequency);
    WindowSlotsLength(t, endTotal, frequency);
    assert (|s| - 1) * frequency == (|s| - 1) * 30 && |s| * frequency == |s| * 30;
  }

  /** Reminder `k` of the default window is reminder `k` of MainActivity's fixed schedule. */
  lemma DefaultWindowSlot(t: TimeOfDay, endTotal: int, frequency: int, k: int)
    requires t == TimeOfDay(17, 0) && endTotal == 23 * 60 && frequency == 30
    requires 0 <= k < 13
    ensures k < |WindowSlots(t, endTotal, frequency)|
    ensures WindowSlots(t, endTotal, frequency)[k] == MainActivityKt.FixedSlots()[k]
  {
    DefaultWindowLength(t, endTotal, frequency);
    WindowSlotAt(t, endTotal, frequency, k);
    assert k * frequency == k * 30;
    MainActivityKt.FixedSlotsShape();
    SameClockTime(WindowSlots(t, endTotal, frequency)[k], MainActivityKt.FixedSlots()[k]);
  }

  /**
    The default settings (17:00 to 23:00 every 30 minutes) give exactly the
    fixed schedule of MainActivity: the same 13 times under the same codes.
  */
  lemma DefaultWindowIsFixedSchedule(t: TimeOfDay, endTotal: int, frequency: int)
    requires t == TimeOfDay(17, 0) && endTotal == 23 * 60 && frequency == 30
    ensures WindowSlots(t, endTotal, frequency) == MainActivityKt.FixedSlots()
  {
    DefaultWindowLength(t, endTotal, frequency);
    MainActivityKt.FixedSlotsShape();
    DefaultWindowSlots(t, endTotal, frequency);
  }

  /** Every reminder of the default window is the fixed schedule's reminder at that index. */
  lemma DefaultWindowSlots(t: TimeOfDay, endTotal: int, frequency: int)
    requires t == TimeOfDay(17, 0) && endTotal == 23 * 60 && frequency == 30
    ensures |WindowSlots(t, endTotal, frequency)| == 13
    ensures forall k :: 0 <= k < 13 ==> WindowSlots(t, endTotal, frequency)[k] == MainActivityKt.FixedSlots()[k]
  {
    DefaultWindowLength(t, endTotal, frequency);
    forall k | 0 <= k < 13 ensures WindowSlots(t, endTotal, frequency)[k] == MainActivityKt.FixedSlots()[k] {
      DefaultWindowSlot(t, endTotal, frequency, k);
    }
  }

  /**
    A window wider than the 51 cancelled codes leaves reminders behind: 08:00
    to 22:00 every 15 minutes uses 57 codes, and after any later pass with at
    most 51 slots the alarms under codes 51..56 still fire at their old times.
  */
  lemma WideWindowLeavesStaleAlarms(r: Registry, start: TimeOfDay, endTotal: int, frequency: int,
                                    second: seq<TimeOfDay>, permitted: int -> bool, k: int)
    requires start == TimeOfDay(8, 0) && endTotal == 22 * 60 && frequency == 15
    requires 51 <= k < 57 && permitted(k) && |second| <= 51
    ensures var first := WindowSlots(start, endTotal, frequency);
      && |first| == 57
      && var once := RegisterAll(CancelRange(r, 0, 50), first, permitted);
         var twice := RegisterAll(CancelRange(once, 0, 50), second, permitted);
         k in twice && twice[k] == first[k]
  {
    var first := WindowSlots(start, endTotal, frequency);
    WindowSlotsLength(start, endTotal, frequency);
    assert |first| == 57 by {
      assert (|first| - 1) * frequency == (|first| - 1) * 15 && |first| * frequency == |first| * 15;
    }
    StaleCodeSurvives(r, 0, 50, first, second, permitted, k);
  }

  /** A window of at most 51 reminders is fully replaced when it is scheduled again. */
  lemma NarrowWindowRescheduleIdempotent(r: Registry, slots: seq<TimeOfDay>, permitted: int -> bool)
    requires |slots| <= 51
    ensures RegisterAll(CancelRange(RegisterAll(CancelRange(r, 0, 50), slots, permitted), 0, 50), slots, permitted)
         == RegisterAll(CancelRange(r, 0, 50), slots, permitted)
  {
    RescheduleIdempotent(r, 0, 50, slots, permitted);
  }

  // ---------------------------------------------------------------------------
  // Stored settings
  // ---------------------------------------------------------------------------

  /** The single `edit() ... apply()` of `saveSettings`. */
  function StoredSettings(p: Prefs, enabled: bool, startHour: int, startMinute: int,
                          endHour: int, endMinute: int, frequency: int): Prefs
  {
    PutInt(PutInt(PutInt(PutInt(PutInt(PutBool(p, NotifEnabledKey, enabled),
      StartHourKey, startHour), StartMinuteKey, startMinute), EndHourKey, endHour), EndMinuteKey, endMinute),
      FrequencyKey, frequency)
  }

  /**
    What `saveSettings` stores, `loadSettings` reads back, whatever the
    defaults; the task list entries are untouched.
  */
  lemma StoredSettingsReadBack(p: Prefs, enabled: bool, sh: int, sm: int, eh: int, em: int, f: int)
    ensures var q := StoredSettings(p, enabled, sh, sm, eh, em, f);
      && GetBool(q, NotifEnabledKey, true) == enabled
      && GetInt(q, StartHourKey, 17) == sh && GetInt(q, StartMinuteKey, 0) == sm
      && GetInt(q, EndHourKey, 23) == eh && GetInt(q, EndMinuteKey, 0) == em
      && GetInt(q, FrequencyKey, 30) == f
      && q.strings == p.strings
  {
  }

  /** `Build.VERSION.SDK_INT < S || alarmManager.canScheduleExactAlarms()`, per request code. */
  function ExactPolicy(sdkAtLeastS: bool, canExact: int -> bool): int -> bool
  {
    code => !sdkAtLeastS || canExact(code)
  }

  // ---------------------------------------------------------------------------
  // The activity
  // ---------------------------------------------------------------------------

  class SettingsActivity {
    var prefs: Prefs
    /** The alarms registered for the receiver, by request code. */
    var alarms: Registry
    /** `notificationSwitch.isChecked`. */
    var notificationsChecked: bool
    /** The spinner's selected position. */
    var spinnerSelection: int
    var startHour: int
    var startMinute: int
    var endHour: int
    var endMinute: int
    var frequencyMinutes: int

    function StartTime(): TimeOfDay
      reads this`startHour, this`startMinute
    {
      TimeOfDay(startHour, startMinute)
    }

    function EndTotal(): int
      reads this`endHour, this`endMinute
    {
      endHour * 60 + endMinute
    }

    /** `onCreate` without the views: field initialisers, `loadSettings`, `setupSpinner`. */
    constructor (p: Prefs, registered: Registry)
      ensures prefs == p && alarms == registered
      ensures notificationsChecked == GetBool(p, NotifEnabledKey, true)
      ensures startHour == GetInt(p, StartHourKey, 17) && startMinute == GetInt(p, StartMinuteKey, 0)
      ensures endHour == GetInt(p, EndHourKey, 23) && endMinute == GetInt(p, EndMinuteKey, 0)
      ensures frequencyMinutes == GetInt(p, FrequencyKey, 30)
      ensures spinnerSelection == if IndexOfMinutes(FrequencyOptions, frequencyMinutes) >= 0
        then IndexOfMinutes(FrequencyOptions, frequencyMinutes) else 0
    {
      prefs, alarms := p, registered;
      notificationsChecked, spinnerSelection := true, 0;
      startHour, startMinute, endHour, endMinute, frequencyMinutes := 17, 0, 23, 0, 30;
      new;
      LoadSettings();
      SetupSpinner();
    }

    method LoadSettings()
      modifies this`notificationsChecked, this`startHour, this`startMinute, this`endHour, this`endMinute,
               this`frequencyMinutes
      ensures notificationsChecked == GetBool(prefs, NotifEnabledKey, true)
      ensures startHour == GetInt(prefs, StartHourKey, 17) && startMinute == GetInt(prefs, StartMinuteKey, 0)
      ensures endHour == GetInt(prefs, EndHourKey, 23) && endMinute == GetInt(prefs, EndMinuteKey, 0)
      ensures frequencyMinutes == GetInt(prefs, FrequencyKey, 30)
    {
      notificationsChecked := GetBool(prefs, NotifEnabledKey, true);
      startHour := GetInt(prefs, StartHourKey, 17);
      startMinute := GetInt(prefs, StartMinuteKey, 0);
      endHour := GetInt(prefs, EndHourKey, 23);
      endMinute := GetInt(prefs, EndMinuteKey, 0);
      frequencyMinutes := GetInt(prefs, FrequencyKey, 30);
    }

    /** Selects the entry of the loaded frequency; an unlisted frequency leaves the selection alone. */
    method SetupSpinner()
      modifies this`spinnerSelection
      ensures var i := IndexOfMinutes(FrequencyOptions, frequencyMinutes);
        spinnerSelection == if i >= 0 then i else old(spinnerSelection)
      ensures 0 <= old(spinnerSelection) < |FrequencyOptions| ==> 0 <= spinnerSelection < |FrequencyOptions|
    {
      var selectedIndex := IndexOfMinutes(FrequencyOptions, frequencyMinutes);
      if selectedIndex >= 0 {
        spinnerSelection := selectedIndex;
      }
    }

    /** `onItemSelected`: the chosen entry's minutes become the frequency. */
    method OnFrequencySelected(position: int)
      requires 0 <= position < |FrequencyOptions|
      modifies this`frequencyMinutes, this`spinnerSelection
      ensures frequencyMinutes == FrequencyOptions[position].1 && spinnerSelection == position
      ensures frequencyMinutes > 0
      ensures IndexOfMinutes(FrequencyOptions, frequencyMinutes) == position
    {
      spinnerSelection := position;
      frequencyMinutes := FrequencyOptions[position].1;
      SpinnerFindsListedFrequency(frequencyMinutes);
    }

    /** The time picker's callback: the picked time becomes the start or the end. */
    method OnTimePicked(isStartTime: bool, selectedHour: int, selectedMinute: int)
      modifies this`startHour, this`startMinute, this`endHour, this`endMinute
      ensures isStartTime ==> startHour == selectedHour && startMinute == selectedMinute
                              && endHour == old(endHour) && endMinute == old(endMinute)
      ensures !isStartTime ==> endHour == selectedHour && endMinute == selectedMinute
                               && startHour == old(startHour) && startMinute == old(startMinute)
    {
      if isStartTime {
        startHour := selectedHour;
        startMinute := selectedMinute;
      } else {
        endHour := selectedHour;
        endMinute := selectedMinute;
      }
    }

    /**
      `saveSettings`: refuse a window whose end is not after its start and
      change nothing; otherwise store the settings in one edit and reschedule.
    */
    method SaveSettings(sdkAtLeastS: bool, canExact: int -> bool) returns (saved: bool)
      requires notificationsChecked && StartTime().Total() < EndTotal() ==> frequencyMinutes > 0
      modifies this`prefs, this`alarms
      ensures saved == (StartTime().Total() < EndTotal())
      ensures !saved ==> prefs == old(prefs) && alarms == old(alarms)
      ensures saved ==> prefs == StoredSettings(old(prefs), notificationsChecked, startHour, startMinute,
                                                endHour, endMinute, frequencyMinutes)
      ensures saved ==> alarms == RegisterAll(CancelRange(old(alarms), 0, 50),
        if notificationsChecked then WindowSlots(StartTime(), EndTotal(), frequencyMinutes) else [],
        ExactPolicy(sdkAtLeastS, canExact))
    {
      var startTotal := startHour * 60 + startMinute;
      var endTotal := endHour * 60 + endMinute;
      if startTotal >= endTotal {
        return false;
      }
      prefs := StoredSettings(prefs, notificationsChecked, startHour, startMinute, endHour, endMinute,
                              frequencyMinutes);
      ScheduleNotifications(sdkAtLeastS, canExact);
      saved := true;
    }

    /**
      `scheduleNotifications`: cancel codes 0..50; when the switch is on,
      register the window's times under codes 0, 1, 2, ..., each only where
      the exact-alarm policy allows it.
    */
    method ScheduleNotifications(sdkAtLeastS: bool, canExact: int -> bool)
      requires notificationsChecked && StartTime().Total() <= EndTotal() ==> frequencyMinutes > 0
      modifies this`alarms
      ensures alarms == RegisterAll(CancelRange(old(alarms), 0, 50),
        if notificationsChecked then WindowSlots(StartTime(), EndTotal(), frequencyMinutes) else [],
        ExactPolicy(sdkAtLeastS, canExact))
    {
      alarms := CancelCodes(alarms, 50);
      ghost var base := alarms;
      ghost var permitted := ExactPolicy(sdkAtLeastS, canExact);
      if !notificationsChecked {
        assert RegisterAll(base, [], permitted).Keys == base.Keys;
        return;
      }
      ghost var e := EndTotal();
      ghost var f := frequencyMinutes;
      ghost var all := WindowSlots(StartTime(), e, f);
      ghost var emitted: seq<TimeOfDay> := [];
      var requestCode := 0;
      var currentHour := startHour;
      var currentMinute := startMinute;
      while true
        invariant requestCode == |emitted|
        invariant e == endHour * 60 + endMinute && f == frequencyMinutes
        invariant f > 0 || TimeOfDay(currentHour, currentMinute).Total() > e
        invariant emitted + WindowSlots(TimeOfDay(currentHour, currentMinute), e, f) == all
        invariant alarms == RegisterAll(base, emitted, permitted)
        decreases e - (currentHour * 60 + currentMinute)
      {
        var currentTotal := currentHour * 60 + currentMinute;
        var endTotal := endHour * 60 + endMinute;
        if currentTotal > endTotal {
          break;
        }
        var t := TimeOfDay(currentHour, currentMinute);
        RegisterNext(base, emitted, t, permitted);
        assert permitted(requestCode) == (!sdkAtLeastS || canExact(requestCode));
        if !sdkAtLeastS || canExact(requestCode) {
          alarms := alarms[requestCode := t];
        }
        WindowStep(emitted, t, e, f);
        emitted := emitted + [t];
        requestCode := requestCode + 1;
        currentHour, currentMinute := CarryMinutes(currentHour, currentMinute + frequencyMinutes);
        assert TimeOfDay(currentHour, currentMinute) == Advance(t, f);
      }
      assert emitted == all;
    }
  }
}
