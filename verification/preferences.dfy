/**
  The app's `SharedPreferences` file ("DailyDisciplinePrefs") as a value: one map
  per value kind. Every `edit() ... apply()` chain is one atomic update of this
  value; reads fall back to the caller's default when a key is absent.
*/
module Preferences {

  datatype Prefs = Prefs(strings: map<string, string>, ints: map<string, int>, bools: map<string, bool>)

  const Empty: Prefs := Prefs(map[], map[], map[])

  // Keys defined in the companion object of MainActivity.
  const TaskNamesKey: string := "task_names"
  const TaskStatusKey: string := "task_status"
  const LastResetKey: string := "lastReset"

  // Keys SettingsActivity and NotificationReceiver read from MainActivity's companion
  // object; their string values are not part of the MainActivity revision modelled
  // here, so these are stand-ins, distinct from each other and from the keys above.
  const NotifEnabledKey: string := "notifications_enabled"
  const StartHourKey: string := "start_hour"
  const StartMinuteKey: string := "start_minute"
  const EndHourKey: string := "end_hour"
  const EndMinuteKey: string := "end_minute"
  const FrequencyKey: string := "frequency_minutes"

  /** `getString(key, default) ?: default`. */
  function GetString(p: Prefs, key: string, default: string): string
  {
    if key in p.strings then p.strings[key] else default
  }

  function GetInt(p: Prefs, key: string, default: int): int
  {
    if key in p.ints then p.ints[key] else default
  }

  function GetBool(p: Prefs, key: string, default: bool): bool
  {
    if key in p.bools then p.bools[key] else default
  }

  function PutString(p: Prefs, key: string, v: string): Prefs
  {
    p.(strings := p.strings[key := v])
  }

  function PutInt(p: Prefs, key: string, v: int): Prefs
  {
    p.(ints := p.ints[key := v])
  }

  function PutBool(p: Prefs, key: string, v: bool): Prefs
  {
    p.(bools := p.bools[key := v])
  }
}
