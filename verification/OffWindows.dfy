/** Weekly notification-off windows on the line of local minutes. */
module OffWindows {
  import opened Domain

  const DAY: int := 1440

  /** The weekday, Sunday being 0, of a day counted from 1 January 1970, a Thursday. */
  function Weekday(day: int): int {
    (day + 4) % 7
  }

  function PreviousWeekday(weekday: int): int {
    if weekday == 0 then 6 else weekday - 1
  }

  /** What compiling a window guarantees: known weekdays and a non-empty interval. */
  predicate ValidWindow(w: OffWindow) {
    && w.days != {} && (forall d :: d in w.days ==> 0 <= d <= 6)
    && 0 <= w.from < DAY && 0 <= w.to <= DAY && w.from != w.to
  }

  /** The window's length; an interval that ends before it starts runs past midnight. */
  function Length(w: OffWindow): int {
    if w.from < w.to then w.to - w.from else w.to + DAY - w.from
  }

  /** The window opens on a listed day and covers `minute`. */
  ghost predicate OpensOn(w: OffWindow, day: int, minute: int) {
    Weekday(day) in w.days && day * DAY + w.from <= minute < day * DAY + w.from + Length(w)
  }

  ghost predicate Covers(w: OffWindow, minute: int) {
    exists day :: OpensOn(w, day, minute)
  }

  /** Notifications are off: some window covers the minute. */
  ghost predicate OffActive(windows: seq<OffWindow>, minute: int) {
    exists w :: w in windows && Covers(w, minute)
  }

  /** The test the service makes, on the weekday and the minute of the day. */
  predicate ContainsMinute(days: set<int>, weekday: int, previous: int, minuteOfDay: int, from: int, to: int) {
    if from < to then weekday in days && from <= minuteOfDay < to
    else if minuteOfDay >= from then weekday in days
    else minuteOfDay < to && previous in days
  }

  lemma PreviousIsDayBefore(day: int)
    ensures PreviousWeekday(Weekday(day)) == Weekday(day - 1)
  {
  }

  /** A window that covers a minute opened that day or, past midnight, the day before. */
  lemma OpeningDay(w: OffWindow, day: int, minute: int)
    requires ValidWindow(w) && OpensOn(w, day, minute)
    ensures day == minute / DAY || (w.from > w.to && day == minute / DAY - 1)
  {
    var today := minute / DAY;
    assert today * DAY <= minute < (today + 1) * DAY;
    assert day * DAY <= minute < (day + 2) * DAY;
    if w.from < w.to {
      assert minute < (day + 1) * DAY;
    }
  }

  /** The test on weekday and minute of the day decides exactly whether the window covers the minute. */
  lemma ContainsIffCovers(w: OffWindow, minute: int)
    requires ValidWindow(w)
    ensures var weekday := Weekday(minute / DAY);
            ContainsMinute(w.days, weekday, PreviousWeekday(weekday), minute % DAY, w.from, w.to) <==> Covers(w, minute)
  {
    var today := minute / DAY;
    var minuteOfDay := minute % DAY;
    assert minute == today * DAY + minuteOfDay;
    PreviousIsDayBefore(today);
    if ContainsMinute(w.days, Weekday(today), PreviousWeekday(Weekday(today)), minuteOfDay, w.from, w.to) {
      var day := if w.from > w.to && minuteOfDay < w.from then today - 1 else today;
      assert OpensOn(w, day, minute);
    }
    if Covers(w, minute) {
      var day :| OpensOn(w, day, minute);
      OpeningDay(w, day, minute);
    }
  }

  /** Scans the windows in order and stops at the first that contains the minute. */
  method NotifyOffActiveAt(windows: seq<OffWindow>, minute: int) returns (active: bool)
    requires forall w :: w in windows ==> ValidWindow(w)
    ensures active <==> OffActive(windows, minute)
  {
    var weekday := Weekday(minute / DAY);
    var previous := PreviousWeekday(weekday);
    for i := 0 to |windows|
      invariant forall k :: 0 <= k < i ==> !Covers(windows[k], minute)
    {
      var w := windows[i];
      ContainsIffCovers(w, minute);
      if ContainsMinute(w.days, weekday, previous, minute % DAY, w.from, w.to) {
        return true;
      }
    }
    active := false;
  }
}
