/** The daily-run rule of the service mode: the monitoring task runs once
    per calendar day, at the first check at or after the configured time of
    day. Instants are whole seconds of local time; the clock is a
    parameter. */
module Schedule {
  import opened Text

  const SecondsPerDay: int := 86400

  /** The local calendar day of an instant (`.date()`). */
  function Day(t: int): int {
    t / SecondsPerDay
  }

  /** `datetime.time(hour, minute)` accepts only a valid time of day. */
  predicate ValidRunTime(hour: int, minute: int) {
    0 <= hour < 24 && 0 <= minute < 60
  }

  /** The configured run time on the day of `now`
      (`datetime.combine(now.date(), time(hour, minute))`). */
  function Target(now: int, hour: int, minute: int): (r: int)
    requires ValidRunTime(hour, minute)
    ensures Day(r) == Day(now)
  {
    Day(now) * SecondsPerDay + hour * 3600 + minute * 60
  }

  /** The answer of the rule: `None` when the configured time is not a time
      of day (the constructor raises), else whether to run now. */
  function Due(serviceMode: bool, lastRun: Option<int>, hour: int, minute: int, now: int): (r: Option<bool>)
    ensures !serviceMode ==> r == Some(false)
    ensures serviceMode && !ValidRunTime(hour, minute) ==> r.None?
  {
    if !serviceMode then Some(false)
    else if !ValidRunTime(hour, minute) then None
    else
      match lastRun
      case None => Some(now >= Target(now, hour, minute))
      case Some(last) => Some(Day(last) < Day(now) && now >= Target(now, hour, minute))
  }

  /** The part of the monitor the rule reads and each monitoring run updates. */
  class Monitor {
    var serviceMode: bool
    var lastRun: Option<int>
    var runHour: int
    var runMinute: int

    /** A fresh monitor has never run; the run time is the configured one
        (08:00 when nothing is configured). */
    constructor(serviceMode: bool, runHour: int, runMinute: int)
      ensures this.serviceMode == serviceMode && lastRun.None?
      ensures this.runHour == runHour && this.runMinute == runMinute
    {
      this.serviceMode := serviceMode;
      lastRun := None;
      this.runHour := runHour;
      this.runMinute := runMinute;
    }

    /** `should_run_now`, with the current instant passed in. */
    method ShouldRunNow(now: int) returns (r: Option<bool>)
      ensures r == Due(serviceMode, lastRun, runHour, runMinute, now)
    {
      if !serviceMode {
        return Some(false);
      }
      if !(0 <= runHour < 24 && 0 <= runMinute < 60) {
        return None;
      }
      var target := (now / SecondsPerDay) * SecondsPerDay + runHour * 3600 + runMinute * 60;
      if lastRun.None? {
        if now >= target {
          return Some(true);
        } else {
          return Some(false);
        }
      }
      var lastDate := lastRun.value / SecondsPerDay;
      if lastDate < now / SecondsPerDay && now >= target {
        return Some(true);
      }
      return Some(false);
    }

    /** The monitoring task records the instant it starts at (the guard
        against a task already running is not part of this model). */
    method MarkRun(now: int)
      modifies this
      ensures lastRun == Some(now)
      ensures serviceMode == old(serviceMode) && runHour == old(runHour) && runMinute == old(runMinute)
    {
      lastRun := Some(now);
    }
  }

  /** A monitor that has never run runs exactly once the run time of the day
      has come. */
  lemma FirstRunAtTarget(hour: int, minute: int, now: int)
    requires ValidRunTime(hour, minute)
    ensures Due(true, None, hour, minute, now) == Some(now - Day(now) * SecondsPerDay >= hour * 3600 + minute * 60)
  {
  }

  /** After a run, the rule stays quiet for the rest of that calendar day,
      whatever the time. */
  lemma OncePerDay(hour: int, minute: int, last: int, now: int)
    requires Day(now) <= Day(last)
    ensures Due(true, Some(last), hour, minute, now) != Some(true)
  {
  }

  /** On a later day it runs again exactly once the run time has come. */
  lemma NextDayAtTarget(hour: int, minute: int, last: int, now: int)
    requires ValidRunTime(hour, minute) && Day(last) < Day(now)
    ensures Due(true, Some(last), hour, minute, now) == Due(true, None, hour, minute, now)
  {
  }

  /** Within a day, once the rule says run it keeps saying so until a run
      is recorded. */
  lemma DueStaysDue(serviceMode: bool, lastRun: Option<int>, hour: int, minute: int, now: int, later: int)
    requires now <= later && Day(now) == Day(later)
    requires Due(serviceMode, lastRun, hour, minute, now) == Some(true)
    ensures Due(serviceMode, lastRun, hour, minute, later) == Some(true)
  {
  }

  /** Before the run time of a day the rule never says run. */
  lemma NotBeforeTarget(serviceMode: bool, lastRun: Option<int>, hour: int, minute: int, now: int)
    requires ValidRunTime(hour, minute)
    requires now - Day(now) * SecondsPerDay < hour * 3600 + minute * 60
    ensures Due(serviceMode, lastRun, hour, minute, now) == Some(false)
  {
  }
}
