/**
  NotificationReciever.kt: the broadcast receiver each reminder alarm wakes. It
  only reads the preferences and decides whether to post the
  "Tasks Incomplete!" notification.
*/
module NotificationReceiverKt {
  import opened Wrappers
  import opened KotlinText
  import opened Preferences
  import opened TaskStore

  /** The parts of the posted notification that depend on the task state. */
  datatype Notification = Notification(title: string, contentText: string, bigText: string)

  const CountSuffix: string := " task(s) remaining"
  const BodyPrefix: string := "You have "
  const BodyMiddle: string := " incomplete task(s):\n"

  /** The notification built for a non-empty list of incomplete task names. */
  function AlertFor(incomplete: seq<string>): Notification
  {
    var count := NatToString(|incomplete|);
    Notification("Tasks Incomplete!", count + CountSuffix, BodyPrefix + count + BodyMiddle + Join(incomplete, ", "))
  }

  /**
    The title is "Tasks Incomplete!"; the short text is the incomplete count
    in decimal followed by " task(s) remaining"; the body repeats the count and
    ends with the names joined by ", " in list order.
  */
  lemma AlertCarriesCountAndNames(incomplete: seq<string>)
    ensures var n := AlertFor(incomplete);
      && n.title == "Tasks Incomplete!"
      && |n.contentText| > |CountSuffix|
      && var digits := n.contentText[..|n.contentText| - |CountSuffix|];
         IsDigits(digits) && ParseDigits(digits) == |incomplete|
         && n.contentText == digits + CountSuffix
         && n.bigText == BodyPrefix + digits + BodyMiddle + Join(incomplete, ", ")
  {
    var count := NatToString(|incomplete|);
    NatToStringRoundTrip(|incomplete|);
    assert (count + CountSuffix)[..|count|] == count;
  }

  /** `prefs.getBoolean(NOTIF_ENABLED_KEY, true)`. */
  predicate RemindersEnabled(p: Prefs)
  {
    GetBool(p, NotifEnabledKey, true)
  }

  /**
    `onReceive`: nothing when reminders are disabled or the names string is
    blank; otherwise the incomplete tasks, decoded exactly as TasksActivity
    loads them, and a notification when there is at least one and the
    notification permission is granted. The preferences are only read.
  */
  method OnReceive(p: Prefs, permissionGranted: bool) returns (posted: Option<Notification>)
    ensures !RemindersEnabled(p) ==> posted == None
    ensures var incomplete := IncompleteNames(DecodeStrict(GetString(p, TaskNamesKey, ""), GetString(p, TaskStatusKey, "")));
      && (posted.Some? <==> RemindersEnabled(p) && permissionGranted && incomplete != [])
      && (posted.Some? ==> posted.value == AlertFor(incomplete))
  {
    var enabled := GetBool(p, NotifEnabledKey, true);
    if !enabled {
      return None;
    }
    var namesString := GetString(p, TaskNamesKey, "");
    var statusString := GetString(p, TaskStatusKey, "");
    if namesString == "" || IsBlank(namesString) {
      return None;
    }
    var names := NonEmpty(Split(namesString));
    var statuses := if statusString != "" then Split(statusString) else AllFalse(|names|);
    ghost var loaded := PairStrict(names, statuses);
    assert loaded == DecodeStrict(namesString, statusString);
    var incompleteTasks: seq<string> := [];
    var i := 0;
    while i < |names|
      invariant 0 <= i <= |names| == |loaded|
      invariant incompleteTasks == IncompleteNames(loaded[..i])
    {
      var name := names[i];
      if name != "" {
        var parsed := if i < |statuses| then ParseStrict(statuses[i]) else None;
        var completed := if parsed.Some? then parsed.value else false;
        StrictStep(names, statuses, i);
        if !completed {
          incompleteTasks := incompleteTasks + [name];
        }
      }
      assert loaded[..i + 1][..i] == loaded[..i];
      i := i + 1;
    }
    assert loaded[..i] == loaded;
    posted := None;
    if incompleteTasks != [] {
      var notification := AlertFor(incompleteTasks);
      if permissionGranted {
        posted := Some(notification);
      }
    }
  }

  /**
    After TasksActivity saved a storable list, the receiver reminds of exactly
    that list's incomplete tasks, in list order, and stays silent when all are
    done.
  */
  lemma ReceiverSeesSavedList(p: Prefs, ts: seq<Task>)
    requires StrictStorable(ts)
    ensures var q := Saved(p, ts);
      IncompleteNames(DecodeStrict(GetString(q, TaskNamesKey, ""), GetString(q, TaskStatusKey, ""))) == IncompleteNames(ts)
  {
    StrictRoundTrip(ts);
  }
}
