/**
 * The browser's key-value storage as the install prompts use it: string
 * values, dismissal time stamps written with `Date.now().toString()` and
 * read back with `parseInt`. Also the two other things both prompts share:
 * the answer to the install dialog and the reminders they schedule.
 */
module LocalStorage {
  import opened Wrappers
  import opened Text

  /** A storage area: `getItem` is `Get`, `setItem` is a map update. */
  type Store = map<string, string>

  function Get(store: Store, key: string): (r: Option<string>)
    ensures r.Some? <==> key in store
    ensures r.Some? ==> r.value == store[key]
  {
    if key in store then Some(store[key]) else None
  }

  const HourMs: int := 60 * 60 * 1000
  const DayMs: int := 24 * HourMs

  /**
   * `if (stored) { t = parseInt(stored); if ((now - t) / unit < limit) ... }`
   * with `window = unit * limit`: the stored value is present and non-empty,
   * parses to a number, and lies less than `window` milliseconds before
   * `now`. A value that parses to NaN fails the comparison.
   */
  predicate DismissedWithin(stored: Option<string>, now: int, window: int): (r: bool)
    ensures r ==> stored.Some? && stored.value != ""
    ensures r ==> exists t :: ParseInt(stored.value) == Some(t) && now - t < window
    ensures stored.Some? && ParseInt(stored.value).Some? && stored.value != "" ==>
      (r <==> now - ParseInt(stored.value).value < window)
  {
    Truthy(stored) && ParseInt(stored.value).Some? && now - ParseInt(stored.value).value < window
  }

  /** A value `parseInt` reads as NaN never counts as a recent dismissal. */
  lemma NaNNeverSuppresses(stored: Option<string>, now: int, window: int)
    requires stored.Some? && ParseInt(stored.value).None?
    ensures !DismissedWithin(stored, now, window)
  {
  }

  /**
   * A time stamp written as `t.toString()` is read back as `t`: the
   * dismissal counts exactly while less than `window` has passed since `t`.
   */
  lemma StampRoundTrip(t: nat, now: int, window: int)
    ensures DismissedWithin(Some(Decimal(t)), now, window) <==> now - t < window
  {
    ParseIntDecimal(t);
  }

  /** The user's answer to the browser's install dialog (`userChoice.outcome`). */
  datatype Outcome = Accepted | Declined

  /** A `setTimeout` a prompt schedules: after `delay` ms, show the prompt again if `reshow`. */
  datatype Reminder = Reminder(delay: int, reshow: bool)
}
