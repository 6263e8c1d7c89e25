/**
  TasksActivity.kt: the later task screen. It keeps the same task list in the
  same preferences, but loads it defensively: a blank names string is no list,
  empty name tokens are dropped before pairing, and only the exact words
  "true" / "false" are read as flags.
*/
module TasksActivityKt {
  import opened Wrappers
  import opened KotlinText
  import opened Preferences
  import opened TaskStore

  class TasksActivity {
    /** The shared preferences file, as last committed. */
    var prefs: Prefs
    /** `private val tasks = mutableListOf<Task>()`. */
    var tasks: seq<Task>

    /** No held task name contains the delimiter. */
    ghost predicate Valid()
      reads this
    {
      forall k :: 0 <= k < |tasks| ==> NoDelim(tasks[k].name)
    }

    /** `onCreate` without the views: bind the preferences and load the list. */
    constructor (p: Prefs)
      ensures prefs == p
      ensures tasks == DecodeStrict(GetString(p, TaskNamesKey, ""), GetString(p, TaskStatusKey, ""))
      ensures Valid()
    {
      prefs := p;
      tasks := [];
      new;
      LoadTasks();
    }

    /**
      `loadTasks`: nothing for an empty or blank names string; otherwise one
      task per non-empty name token, with the strict flag of the status token
      at its position among the kept tokens. The preferences are only read.
    */
    method LoadTasks()
      modifies this`tasks
      ensures tasks == DecodeStrict(GetString(prefs, TaskNamesKey, ""), GetString(prefs, TaskStatusKey, ""))
      ensures forall k :: 0 <= k < |tasks| ==> tasks[k].name != ""
      ensures Valid()
    {
      tasks := [];
      var namesString := GetString(prefs, TaskNamesKey, "");
      var statusString := GetString(prefs, TaskStatusKey, "");
      if namesString == "" || IsBlank(namesString) {
        return;
      }
      var tokens := Split(namesString);
      var names := NonEmpty(tokens);
      var statuses := if statusString != "" then Split(statusString) else AllFalse(|names|);
      ghost var loaded := PairStrict(names, statuses);
      assert loaded == DecodeStrict(namesString, statusString);
      var loadedTasks: seq<Task> := [];
      var i := 0;
      while i < |names|
        invariant 0 <= i <= |names| == |loaded|
        invariant loadedTasks == loaded[..i]
      {
        var name := names[i];
        if name != "" {
          var parsed := if i < |statuses| then ParseStrict(statuses[i]) else None;
          var completed := if parsed.Some? then parsed.value else false;
          StrictStep(names, statuses, i);
          loadedTasks := loadedTasks + [Task(name, completed)];
        }
        assert loaded[..i + 1] == loaded[..i] + [loaded[i]];
        i := i + 1;
      }
      assert loadedTasks == loaded;
      tasks := loadedTasks;
      DecodeStrictShape(namesString, statusString);
      assert forall k :: 0 <= k < |tasks| ==> tasks[k] in tasks;
    }

    method SaveTasks()
      modifies this`prefs
      ensures prefs == Saved(old(prefs), tasks)
    {
      var namesString := EncodeNames(tasks);
      var statusString := EncodeStatuses(tasks);
      prefs := PutString(PutString(prefs, TaskNamesKey, namesString), TaskStatusKey, statusString);
    }

    /** The add button: trim, refuse an empty name, otherwise add it. */
    method SubmitTask(input: string) returns (added: bool)
      requires Valid()
      modifies this`tasks, this`prefs
      ensures added == (Trim(input) != "")
      ensures added ==> tasks == Added(old(tasks), Trim(input)) && prefs == Saved(old(prefs), tasks)
      ensures added ==> tasks[|tasks| - 1].name != ""
      ensures !added ==> tasks == old(tasks) && prefs == old(prefs)
      ensures Valid()
    {
      var taskName := Trim(input);
      added := taskName != "";
      if added {
        AddTask(taskName);
      }
    }

    /** `addTask`: replace "|||" by "---", append an incomplete task, save. */
    method AddTask(name: string)
      requires Valid()
      modifies this`tasks, this`prefs
      ensures tasks == Added(old(tasks), name)
      ensures prefs == Saved(old(prefs), tasks)
      ensures Valid()
    {
      var safeName := ReplaceDelim(name);
      tasks := tasks + [Task(safeName, false)];
      SaveTasks();
    }

    method RemoveTask(index: int)
      requires Valid()
      modifies this`tasks, this`prefs
      ensures tasks == Removed(old(tasks), index)
      ensures prefs == if 0 <= index < |old(tasks)| then Saved(old(prefs), tasks) else old(prefs)
      ensures Valid()
    {
      if 0 <= index < |tasks| {
        tasks := tasks[..index] + tasks[index + 1..];
        SaveTasks();
      }
    }

    method ToggleTask(index: int, completed: bool)
      requires Valid()
      modifies this`tasks, this`prefs
      ensures tasks == Toggled(old(tasks), index, completed)
      ensures prefs == if 0 <= index < |old(tasks)| then Saved(old(prefs), tasks) else old(prefs)
      ensures Valid()
    {
      if 0 <= index < |tasks| {
        tasks := tasks[index := tasks[index].(completed := completed)];
        SaveTasks();
      }
    }

    /** `resetAllTasks`: clear every flag in place, then save. */
    method ResetAllTasks()
      requires Valid()
      modifies this`tasks, this`prefs
      ensures tasks == Cleared(old(tasks))
      ensures prefs == Saved(old(prefs), tasks)
      ensures Valid()
    {
      var i := 0;
      while i < |tasks|
        invariant 0 <= i <= |tasks| == |old(tasks)|
        invariant forall k :: 0 <= k < i ==> tasks[k] == old(tasks)[k].(completed := false)
        invariant forall k :: i <= k < |tasks| ==> tasks[k] == old(tasks)[k]
        invariant prefs == old(prefs)
      {
        tasks := tasks[i := tasks[i].(completed := false)];
        i := i + 1;
      }
      assert tasks == Cleared(old(tasks));
      SaveTasks();
    }
  }
}
