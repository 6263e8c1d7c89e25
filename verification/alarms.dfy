/**
  The alarms the app registers with `AlarmManager`, seen through the one thing
  that distinguishes them: the request code of their `PendingIntent`. Every
  alarm repeats daily at a time of day; `cancel(code)` removes the alarm of that
  code and `setRepeating` with a code replaces it.
*/
module Alarms {

  /** A time of day as the scheduler carries it, before any normalisation. */
  datatype TimeOfDay = TimeOfDay(hour: int, minute: int)
  {
    /** `hour * 60 + minute`: the linear minute value the code compares. */
    function Total(): int
    {
      hour * 60 + minute
    }
  }

  /** Registered alarms by request code. */
  type Registry = map<int, TimeOfDay>

  /** `alarmManager.cancel(PendingIntent.getBroadcast(this, code, ...))`. */
  function Cancel(r: Registry, code: int): Registry
  {
    r - {code}
  }

  /** The effect of cancelling every code of `lo..hi`: exactly those codes are gone. */
  function CancelRange(r: Registry, lo: int, hi: int): (c: Registry)
    ensures forall k :: k in c <==> k in r && !(lo <= k <= hi)
    ensures forall k :: k in c ==> c[k] == r[k]
  {
    map k | k in r && !(lo <= k <= hi) :: r[k]
  }

  /**
    `for (i in 0..hi) alarmManager.cancel(...)`: the cancel loop both schedulers
    run before registering, over their own range of request codes.
  */
  method CancelCodes(r: Registry, hi: int) returns (c: Registry)
    requires hi >= -1
    ensures c == CancelRange(r, 0, hi)
  {
    c := r;
    var i := 0;
    while i <= hi
      invariant 0 <= i <= hi + 1
      invariant c == CancelRange(r, 0, i - 1)
    {
      CancelNext(r, 0, i - 1);
      c := Cancel(c, i);
      i := i + 1;
    }
  }

  /** The registration policy of a scheduler that registers every slot. */
  function Always(code: int): bool
  {
    true
  }

  /**
    The effect of registering slot `k` under request code `k` for every `k` the
    policy `permitted` lets through, on top of `base`.
  */
  function RegisterAll(base: Registry, slots: seq<TimeOfDay>, permitted: int -> bool): (r: Registry)
    ensures forall k :: k in r <==> k in base || (0 <= k < |slots| && permitted(k))
    ensures forall k :: 0 <= k < |slots| && permitted(k) ==> r[k] == slots[k]
    ensures forall k :: k in base && !(0 <= k < |slots| && permitted(k)) ==> r[k] == base[k]
  {
    var added := set k | 0 <= k < |slots| && permitted(k);
    map k | k in base.Keys + added :: if k in added then slots[k] else base[k]
  }

  /** Cancelling one more code extends the cancelled range by one. */
  lemma CancelNext(r: Registry, lo: int, hi: int)
    requires lo <= hi + 1
    ensures Cancel(CancelRange(r, lo, hi), hi + 1) == CancelRange(r, lo, hi + 1)
  {
    assert Cancel(CancelRange(r, lo, hi), hi + 1).Keys == CancelRange(r, lo, hi + 1).Keys;
  }

  /** Registering the next slot (or skipping it) extends the registered prefix by one. */
  lemma RegisterNext(base: Registry, slots: seq<TimeOfDay>, t: TimeOfDay, permitted: int -> bool)
    ensures RegisterAll(base, slots + [t], permitted) ==
      if permitted(|slots|) then RegisterAll(base, slots, permitted)[|slots| := t]
      else RegisterAll(base, slots, permitted)
  {
    var a := RegisterAll(base, slots + [t], permitted);
    var b := RegisterAll(base, slots, permitted);
    if permitted(|slots|) {
      assert a.Keys == b[|slots| := t].Keys;
    } else {
      assert a.Keys == b.Keys;
    }
  }

  /**
    A scheduler that first cancels `lo..hi` and then registers codes
    `0..|slots|-1` replaces its own previous pass completely when every code it
    uses lies in the cancelled range: running it twice is running it once.
  */
  lemma RescheduleIdempotent(r: Registry, lo: int, hi: int, slots: seq<TimeOfDay>, permitted: int -> bool)
    requires lo <= 0 && |slots| <= hi + 1
    ensures RegisterAll(CancelRange(RegisterAll(CancelRange(r, lo, hi), slots, permitted), lo, hi), slots, permitted)
         == RegisterAll(CancelRange(r, lo, hi), slots, permitted)
  {
    var once := RegisterAll(CancelRange(r, lo, hi), slots, permitted);
    var twice := RegisterAll(CancelRange(once, lo, hi), slots, permitted);
    assert CancelRange(once, lo, hi) == CancelRange(r, lo, hi);
  }

  /**
    When a pass used codes beyond the cancelled range, a later pass with fewer
    slots leaves those alarms registered: code `k` still fires at its old time.
  */
  lemma StaleCodeSurvives(r: Registry, lo: int, hi: int, first: seq<TimeOfDay>, second: seq<TimeOfDay>,
                          permitted: int -> bool, k: int)
    requires hi < k < |first| && permitted(k) && |second| <= k
    ensures var once := RegisterAll(CancelRange(r, lo, hi), first, permitted);
            var twice := RegisterAll(CancelRange(once, lo, hi), second, permitted);
            k in twice && twice[k] == first[k]
  {
  }
}
