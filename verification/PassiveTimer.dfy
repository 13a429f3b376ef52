/** The passive timer.  Time is an integer count of milliseconds; the reading of the
    steady clock is a parameter `now` of every call. */
module PassiveTimers {

  /** A timer set to this interval never fires. */
  const WAIT_UP_TIME := 0x7FFF_FFFF_FFFF_FFFF

  class PassiveTimer {
    var msec: int    // the interval
    var start: int   // when the timer was last set or reset

    constructor (now: int)
      ensures msec == WAIT_UP_TIME && start == now
    {
      msec, start := WAIT_UP_TIME, now;
    }

    predicate CheckTime(now: int)
      requires start <= now
      reads this
      ensures msec >= 0 ==> (CheckTime(now) <==> msec != WAIT_UP_TIME && now - start >= msec)
    {
      if msec == WAIT_UP_TIME then false
      else if msec == 0 then true
      else now - start >= msec
    }

    method SetTiming(interval: int, now: int)
      modifies this
      ensures msec == interval && start == now
    {
      msec := interval;
      Reset(now);
    }

    method Reset(now: int)
      modifies this`start
      ensures start == now
    {
      start := now;
    }

    function GetCurrent(now: int): int
      reads this
    {
      now - start
    }
  }
}
