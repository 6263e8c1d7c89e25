/**
  The task list and its durable encoding, shared by MainActivity and
  TasksActivity: a task list is stored as two strings, the names and the
  completion flags, each a "|||"-join of one token per task. The two activities
  decode these strings differently (`DecodeLenient` and `DecodeStrict`).
*/
module TaskStore {
  import opened Wrappers
  import opened KotlinText
  import opened Preferences

  /** `data class Task(val name: String, var completed: Boolean = false)`. */
  datatype Task = Task(name: string, completed: bool)

  function Names(ts: seq<Task>): (r: seq<string>)
    ensures |r| == |ts| && forall i :: 0 <= i < |ts| ==> r[i] == ts[i].name
  {
    seq(|ts|, i requires 0 <= i < |ts| => ts[i].name)
  }

  function StatusTokens(ts: seq<Task>): (r: seq<string>)
    ensures |r| == |ts| && forall i :: 0 <= i < |ts| ==> r[i] == BoolToString(ts[i].completed)
  {
    seq(|ts|, i requires 0 <= i < |ts| => BoolToString(ts[i].completed))
  }

  /** `tasks.joinToString("|||") { it.name }`. */
  function EncodeNames(ts: seq<Task>): string
  {
    Join(Names(ts), Delim)
  }

  /** `tasks.joinToString("|||") { it.completed.toString() }`. */
  function EncodeStatuses(ts: seq<Task>): string
  {
    Join(StatusTokens(ts), Delim)
  }

  /** `saveTasks`: both strings are put in one edit, so they are committed together. */
  function Saved(p: Prefs, ts: seq<Task>): Prefs
  {
    PutString(PutString(p, TaskNamesKey, EncodeNames(ts)), TaskStatusKey, EncodeStatuses(ts))
  }

  /** `n` tokens "false". */
  function AllFalse(n: nat): (r: seq<string>)
    ensures |r| == n && forall i :: 0 <= i < n ==> r[i] == "false"
  {
    seq(n, _ => "false")
  }

  /** The status tokens both loaders use: the split status string, or one "false" per name when it is empty. */
  function StatusTokensOrDefault(statusString: string, count: nat): seq<string>
  {
    if statusString != "" then Split(statusString) else AllFalse(count)
  }

  // ---------------------------------------------------------------------------
  // MainActivity.loadTasks
  // ---------------------------------------------------------------------------

  /** `statuses.getOrNull(i)?.toBoolean() ?: false`. */
  predicate LenientFlag(statuses: seq<string>, i: int)
  {
    0 <= i < |statuses| && ParseLenient(statuses[i])
  }

  /** Pairs every name token with the flag of the status token at its index. */
  function PairLenient(names: seq<string>, statuses: seq<string>): (r: seq<Task>)
    ensures |r| == |names|
  {
    seq(|names|, i requires 0 <= i < |names| => Task(names[i], LenientFlag(statuses, i)))
  }

  /** MainActivity's decoder: one task per token of the unfiltered split of the names string. */
  function DecodeLenient(namesString: string, statusString: string): seq<Task>
  {
    if namesString == "" then []
    else
      var names := Split(namesString);
      PairLenient(names, StatusTokensOrDefault(statusString, |names|))
  }

  // ---------------------------------------------------------------------------
  // TasksActivity.loadTasks
  // ---------------------------------------------------------------------------

  /** `filter { it.isNotEmpty() }`: the non-empty tokens, in their original order. */
  function NonEmpty(xs: seq<string>): (r: seq<string>)
    ensures |r| <= |xs|
    ensures forall k :: 0 <= k < |r| ==> r[k] != ""
    ensures (forall k :: 0 <= k < |xs| ==> xs[k] != "") ==> r == xs
    decreases |xs|
  {
    if xs == [] then []
    else (if xs[0] != "" then [xs[0]] else []) + NonEmpty(xs[1..])
  }

  /** The filter keeps a token exactly when it is non-empty. */
  lemma NonEmptySingle(x: string)
    ensures NonEmpty([x]) == if x == "" then [] else [x]
  {
    assert [x][1..] == [];
  }

  /** The filter works token by token: it keeps every non-empty token, in order. */
  lemma {:induction false} NonEmptyAppend(a: seq<string>, b: seq<string>)
    ensures NonEmpty(a + b) == NonEmpty(a) + NonEmpty(b)
    decreases |a|
  {
    if a == [] {
      assert a + b == b;
    } else {
      assert (a + b)[0] == a[0];
      assert (a + b)[1..] == a[1..] + b;
      NonEmptyAppend(a[1..], b);
    }
  }

  /** Filtering keeps only tokens of the input, so delimiter-free tokens stay delimiter-free. */
  lemma {:induction false} NonEmptyNoDelim(xs: seq<string>)
    requires forall k :: 0 <= k < |xs| ==> NoDelim(xs[k])
    ensures forall k :: 0 <= k < |NonEmpty(xs)| ==> NoDelim(NonEmpty(xs)[k])
    decreases |xs|
  {
    if xs != [] {
      NonEmptyNoDelim(xs[1..]);
      assert NonEmpty(xs) == (if xs[0] != "" then [xs[0]] else []) + NonEmpty(xs[1..]);
    }
  }

  /** `statuses.getOrNull(i)?.toBooleanStrictOrNull() ?: false`. */
  predicate StrictFlag(statuses: seq<string>, i: int)
  {
    0 <= i < |statuses| && ParseStrict(statuses[i]) == Some(true)
  }

  /**
    TasksActivity's decoder: a blank names string is the empty list; otherwise
    the non-empty name tokens, each paired with the status token at the same
    index of the FILTERED list.
  */
  function DecodeStrict(namesString: string, statusString: string): seq<Task>
  {
    if namesString == "" || IsBlank(namesString) then []
    else
      var names := NonEmpty(Split(namesString));
      PairStrict(names, StatusTokensOrDefault(statusString, |names|))
  }

  /** Pairs every name token with the flag of the status token at its index. */
  function PairStrict(names: seq<string>, statuses: seq<string>): (r: seq<Task>)
    ensures |r| == |names|
  {
    seq(|names|, i requires 0 <= i < |names| => Task(names[i], StrictFlag(statuses, i)))
  }

  // ---------------------------------------------------------------------------
  // In-place list operations, as functions of the old list
  // ---------------------------------------------------------------------------

  /** `tasks.add(Task(name.replace("|||", "---")))`. */
  function Added(ts: seq<Task>, name: string): (r: seq<Task>)
    ensures |r| == |ts| + 1 && r[..|ts|] == ts
    ensures r[|ts|].completed == false
    ensures NoDelim(r[|ts|].name) && |r[|ts|].name| == |name|
    ensures NoDelim(name) ==> r[|ts|].name == name
    ensures r[|ts|].name == Join(Split(name), "---")
  {
    ReplaceFixesClean(name);
    ReplaceIsSplitJoin(name);
    ts + [Task(ReplaceDelim(name), false)]
  }

  /** `if (index in tasks.indices) tasks.removeAt(index)`. */
  function Removed(ts: seq<Task>, index: int): (r: seq<Task>)
    ensures 0 <= index < |ts| ==> |r| == |ts| - 1
    ensures 0 <= index < |ts| ==> forall k :: 0 <= k < index ==> r[k] == ts[k]
    ensures 0 <= index < |ts| ==> forall k :: index <= k < |r| ==> r[k] == ts[k + 1]
    ensures !(0 <= index < |ts|) ==> r == ts
  {
    if 0 <= index < |ts| then ts[..index] + ts[index + 1..] else ts
  }

  /** `if (index in tasks.indices) tasks[index].completed = completed`. */
  function Toggled(ts: seq<Task>, index: int, completed: bool): (r: seq<Task>)
    ensures |r| == |ts| && Names(r) == Names(ts)
    ensures forall k :: 0 <= k < |ts| && k != index ==> r[k] == ts[k]
    ensures 0 <= index < |ts| ==> r[index].completed == completed
  {
    if 0 <= index < |ts| then ts[index := ts[index].(completed := completed)] else ts
  }

  /** `tasks.forEach { it.completed = false }`. */
  function Cleared(ts: seq<Task>): (r: seq<Task>)
    ensures |r| == |ts| && Names(r) == Names(ts)
    ensures forall k :: 0 <= k < |r| ==> !r[k].completed
  {
    seq(|ts|, i requires 0 <= i < |ts| => ts[i].(completed := false))
  }

  /**
    Pairing names with at least as many "false" tokens gives the same names
    with every flag cleared, whatever status tokens they were paired with before.
  */
  lemma PairAllFalseClears(names: seq<string>, statuses: seq<string>, count: nat)
    requires |names| <= count
    ensures PairLenient(names, AllFalse(count)) == Cleared(PairLenient(names, statuses))
    ensures PairStrict(names, AllFalse(count)) == Cleared(PairStrict(names, statuses))
  {
    BooleanTokensRoundTrip(false, "false");
  }

  /** Clearing every flag twice is clearing them once. */
  lemma ClearedIdempotent(ts: seq<Task>)
    ensures Cleared(Cleared(ts)) == Cleared(ts)
  {
  }

  /**
    The names of the incomplete tasks, in list order: what both receivers
    collect into `incompleteTasks`.
  */
  function IncompleteNames(ts: seq<Task>): (r: seq<string>)
    ensures |r| <= |ts|
    ensures r == [] <==> forall k :: 0 <= k < |ts| ==> ts[k].completed
    ensures forall x :: x in r ==> exists k :: 0 <= k < |ts| && ts[k].name == x && !ts[k].completed
    decreases |ts|
  {
    if ts == [] then []
    else
      var last := ts[|ts| - 1];
      IncompleteNames(ts[..|ts| - 1]) + (if last.completed then [] else [last.name])
  }

  /** A single task contributes its name exactly when it is incomplete. */
  lemma IncompleteNamesSingle(t: Task)
    ensures IncompleteNames([t]) == if t.completed then [] else [t.name]
  {
    assert [t][..0] == [];
  }

  /** Sequence concatenation is associative. */
  lemma ConcatAssoc<T>(x: seq<T>, y: seq<T>, z: seq<T>)
    ensures (x + y) + z == x + (y + z)
  {
  }

  /** Appending one task adds its name at the end exactly when it is incomplete. */
  lemma IncompleteNamesSnoc(front: seq<Task>, last: Task)
    ensures IncompleteNames(front + [last]) == IncompleteNames(front) + (if last.completed then [] else [last.name])
  {
    assert (front + [last])[..|front|] == front;
  }

  /** The collection works task by task: every incomplete task's name is kept, in list order. */
  lemma {:induction false} IncompleteNamesAppend(a: seq<Task>, b: seq<Task>)
    ensures IncompleteNames(a + b) == IncompleteNames(a) + IncompleteNames(b)
    decreases |b|
  {
    if b == [] {
      assert a + b == a;
    } else {
      var front, last := b[..|b| - 1], b[|b| - 1];
      assert b == front + [last];
      assert a + b == (a + front) + [last];
      IncompleteNamesAppend(a, front);
      IncompleteNamesSnoc(a + front, last);
      IncompleteNamesSnoc(front, last);
      ConcatAssoc(IncompleteNames(a), IncompleteNames(front), if last.completed then [] else [last.name]);
    }
  }

  // ---------------------------------------------------------------------------
  // What the decoders promise
  // ---------------------------------------------------------------------------

  /**
    MainActivity's decoder: an empty names string gives no tasks; otherwise one
    task per "|||"-token, in order, completed exactly when the status token at
    the same index reads as `true` ignoring case; an empty status string or a
    missing token gives `false`.
  */
  lemma DecodeLenientShape(namesString: string, statusString: string)
    ensures namesString == "" ==> DecodeLenient(namesString, statusString) == []
    ensures namesString != "" ==> Names(DecodeLenient(namesString, statusString)) == Split(namesString)
    ensures forall i :: 0 <= i < |DecodeLenient(namesString, statusString)| ==>
      (DecodeLenient(namesString, statusString)[i].completed <==>
        statusString != "" && i < |Split(statusString)| && ParseLenient(Split(statusString)[i]))
    ensures forall t :: t in DecodeLenient(namesString, statusString) ==> NoDelim(t.name)
  {
  }

  /**
    TasksActivity's decoder: a blank names string gives no tasks; otherwise the
    non-empty "|||"-tokens in order, completed exactly when the status token at
    the same (filtered) index is exactly "true".
  */
  lemma DecodeStrictShape(namesString: string, statusString: string)
    ensures IsBlank(namesString) ==> DecodeStrict(namesString, statusString) == []
    ensures !IsBlank(namesString) ==> Names(DecodeStrict(namesString, statusString)) == NonEmpty(Split(namesString))
    ensures forall i :: 0 <= i < |DecodeStrict(namesString, statusString)| ==>
      (DecodeStrict(namesString, statusString)[i].completed <==>
        statusString != "" && i < |Split(statusString)| && Split(statusString)[i] == "true")
    ensures forall t :: t in DecodeStrict(namesString, statusString) ==> NoDelim(t.name) && t.name != ""
  {
    if !IsBlank(namesString) {
      assert namesString != "";
      NonEmptyNoDelim(Split(namesString));
    }
  }

  /** The status tokens `saveTasks` writes can always be split back, one per task. */
  lemma StatusTokensRoundTrip(ts: seq<Task>)
    requires |ts| >= 1
    ensures EncodeStatuses(ts) != ""
    ensures Split(EncodeStatuses(ts)) == StatusTokens(ts)
  {
    var st := StatusTokens(ts);
    forall k | 0 <= k < |st| ensures NoDelim(st[k]) && !EndsWithBar(st[k]) {
      assert st[k] == "true" || st[k] == "false";
    }
    SplitJoin(st);
    JoinNonEmpty(st);
  }

  /** A join whose first token is non-empty is non-empty. */
  lemma JoinNonEmpty(xs: seq<string>)
    requires |xs| >= 1 && xs[0] != ""
    ensures Join(xs, Delim) != ""
  {
    if |xs| >= 2 {
      assert Join(xs, Delim) == xs[0] + Delim + Join(xs[1..], Delim);
    }
  }

  /** Names MainActivity can store and read back. */
  predicate LenientStorable(ts: seq<Task>)
  {
    ts == [] || (Separable(Names(ts)) && (|ts| == 1 ==> ts[0].name != ""))
  }

  /** Names TasksActivity can store and read back. */
  predicate StrictStorable(ts: seq<Task>)
  {
    ts == [] || (
      && Separable(Names(ts))
      && (forall k :: 0 <= k < |ts| ==> ts[k].name != "")
      && (|ts| == 1 ==> !IsBlank(ts[0].name)))
  }

  /**
    Round trip of MainActivity's codec: loading what `saveTasks` wrote gives the
    same list exactly when the names are storable: no name holds "|||", no name
    but the last ends in '|', and a lone name is not empty.
  */
  lemma {:induction false} LenientRoundTrip(ts: seq<Task>)
    ensures DecodeLenient(EncodeNames(ts), EncodeStatuses(ts)) == ts <==> LenientStorable(ts)
  {
    if ts != [] {
      var names := Names(ts);
      var d := DecodeLenient(EncodeNames(ts), EncodeStatuses(ts));
      StatusTokensRoundTrip(ts);
      SplitJoin(names);
      if |ts| >= 2 {
        assert EncodeNames(ts) == names[0] + Delim + Join(names[1..], Delim);
      }
      if EncodeNames(ts) == "" {
        assert d != ts;
      } else {
        assert Names(d) == Split(EncodeNames(ts));
        if LenientStorable(ts) {
          forall i | 0 <= i < |ts| ensures d[i] == ts[i] {
            BooleanTokensRoundTrip(ts[i].completed, "");
          }
        } else {
          if |ts| == 1 {
            assert names == [ts[0].name];
            assert d != ts;
          } else {
            assert Names(d) != Names(ts);
          }
        }
      }
    }
  }

  /**
    Round trip of TasksActivity's codec: loading what `saveTasks` wrote gives the
    same list when the names are storable: all non-empty, none holding "|||",
    none but the last ending in '|', and a lone name not blank.
  */
  lemma StrictRoundTrip(ts: seq<Task>)
    requires StrictStorable(ts)
    ensures DecodeStrict(EncodeNames(ts), EncodeStatuses(ts)) == ts
  {
    if ts != [] {
      var d := DecodeStrict(EncodeNames(ts), EncodeStatuses(ts));
      StatusTokensRoundTrip(ts);
      StrictNamesRoundTrip(ts);
      forall i | 0 <= i < |ts| ensures d[i] == ts[i] {
        BooleanTokensRoundTrip(ts[i].completed, "");
      }
    }
  }

  /** The saved names string of a storable, non-empty list is not blank and filters back to the names. */
  lemma StrictNamesRoundTrip(ts: seq<Task>)
    requires ts != [] && StrictStorable(ts)
    ensures !IsBlank(EncodeNames(ts))
    ensures NonEmpty(Split(EncodeNames(ts))) == Names(ts)
  {
    var names := Names(ts);
    SplitJoin(names);
    JoinNonEmpty(names);
    if |ts| >= 2 {
      assert EncodeNames(ts) == names[0] + Delim + Join(names[1..], Delim);
      assert EncodeNames(ts)[|names[0]|] == '|';
    }
  }

  /**
    One step of a strict loader's loop: a non-empty name at index `i` is
    loaded with the flag its status token parses to strictly, or `false`.
  */
  lemma StrictStep(names: seq<string>, statuses: seq<string>, i: int)
    requires 0 <= i < |names| && names[i] != ""
    ensures var parsed := if i < |statuses| then ParseStrict(statuses[i]) else None;
      PairStrict(names, statuses)[i] == Task(names[i], if parsed.Some? then parsed.value else false)
  {
  }
}
