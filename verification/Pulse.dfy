/** The polled pulse generator.  Its output edges since it was switched on are recorded;
    how far apart they lie depends on the two intervals and on how often it is polled. */
module Pulses {
  import opened PassiveTimers

  /** Edge times from switching on: a rise at every even index, a fall at every odd one. */
  predicate IsRise(k: nat) {
    k % 2 == 0
  }

  /** Every phase lasts at least its interval, and at most one polling pause longer. */
  ghost predicate Spaced(edges: seq<int>, t1: int, t0: int, pace: nat) {
    forall k :: 0 < k < |edges| ==>
      var phase := if IsRise(k) then t0 else t1;
      phase <= edges[k] - edges[k - 1] <= phase + pace
  }

  /** `k` periods of length `c`. */
  function Periods(k: nat, c: int): int {
    k * c
  }

  lemma OnePeriodMore(k: nat, c: int)
    ensures Periods(k + 1, c) == Periods(k, c) + c && Periods(0, c) == 0
    ensures c >= 0 ==> Periods(k, c) >= 0
  {
    if c >= 0 { assert k * c >= 0; }
  }

  lemma {:induction false} RiseWindow(edges: seq<int>, t1: int, t0: int, pace: nat, k: nat)
    requires Spaced(edges, t1, t0, pace) && 2 * k < |edges|
    ensures edges[0] + Periods(k, t1 + t0) <= edges[2 * k]
    ensures edges[2 * k] <= edges[0] + Periods(k, t1 + t0) + Periods(k, 2 * pace)
  {
    hide Periods;
    OnePeriodMore(0, t1 + t0);
    OnePeriodMore(0, 2 * pace);
    if k > 0 {
      RiseWindow(edges, t1, t0, pace, k - 1);
      OnePeriodMore(k - 1, t1 + t0);
      OnePeriodMore(k - 1, 2 * pace);
      assert IsRise(2 * k) && !IsRise(2 * k - 1);
    }
  }

  lemma SpacedAppend(edges: seq<int>, t1: int, t0: int, pace: nat, now: int)
    requires edges != [] && Spaced(edges, t1, t0, pace)
    requires var phase := if IsRise(|edges|) then t0 else t1; phase <= now - edges[|edges| - 1] <= phase + pace
    ensures Spaced(edges + [now], t1, t0, pace)
  {
  }

  lemma SpacedLonger(edges: seq<int>, t1: int, t0: int, pace: nat, longer: nat)
    requires Spaced(edges, t1, t0, pace) && pace <= longer
    ensures Spaced(edges, t1, t0, longer)
  {
  }

  class Pulse {
    const t1: PassiveTimer
    const t0: PassiveTimer
    var ostate: bool
    var enabled: bool
    var t1Msec: int
    var t0Msec: int

    ghost var edges: seq<int>   // since switched on
    ghost var seen: int         // the last call
    ghost var pace: nat         // the longest pause between calls since switched on

    ghost predicate Valid()
      reads this, t1, t0
    {
      && t1 != t0 && 0 <= t1Msec && 0 <= t0Msec && t1.start <= seen && t0.start <= seen
      && IntervalsOk()
      && (!enabled ==> !ostate)
      && (enabled ==>
            && edges != [] && Spaced(edges, t1Msec, t0Msec, pace)
            && ostate == IsRise(|edges| - 1)
            && (if ostate then t1.start else t0.start) == edges[|edges| - 1] <= seen
            && NotOverdue(seen))
    }

    /** Both timers carry the configured intervals, or have never been set. */
    ghost predicate IntervalsOk()
      reads this`t1Msec, this`t0Msec, this`edges, t1, t0
    {
      (t1.msec == t1Msec && t0.msec == t0Msec)
      || (t1.msec == WAIT_UP_TIME && t0.msec == WAIT_UP_TIME && |edges| <= 1)
    }

    /** The phase in progress was not overlooked by a poll at `at`. */
    ghost predicate NotOverdue(at: int)
      reads this`ostate, t1, t0
    {
      if ostate then
        t1.start == at || t1.msec == WAIT_UP_TIME || at - t1.start < t1.msec
      else
        t0.msec == WAIT_UP_TIME || at - t0.start < t0.msec
    }

    constructor (now: int)
      ensures Valid() && fresh(t1) && fresh(t0) && !enabled && !ostate && seen == now
    {
      t1 := new PassiveTimer(now);
      t0 := new PassiveTimer(now);
      ostate, enabled, t1Msec, t0Msec := false, false, 0, 0;
      edges, seen, pace := [], now, 0;
    }

    method SetTiming(on: int, off: int, run: bool, now: int)
      requires Valid() && seen <= now && 0 <= on && 0 <= off
      modifies this, t1, t0
      ensures Valid() && t1Msec == on && t0Msec == off && enabled == ostate == run && seen == now
      ensures run ==> edges == [now] && pace == 0
      ensures t1.msec == on && t0.msec == off
    {
      t1Msec := on;
      t0Msec := off;
      t1.SetTiming(t1Msec, now);
      t0.SetTiming(t0Msec, now);
      SwitchTo(run, now);
    }

    /** `set`: switching on starts a high phase now, switching off ends the output. */
    method Set(on: bool, now: int)
      requires Valid() && seen <= now
      modifies this, t1, t0
      ensures Valid() && enabled == ostate == on && seen == now
      ensures on ==> edges == [now] && pace == 0
      ensures t1Msec == old(t1Msec) && t0Msec == old(t0Msec) && t1.msec == old(t1.msec) && t0.msec == old(t0.msec)
    {
      SwitchTo(on, now);
    }

    method SwitchTo(on: bool, now: int)
      requires t1 != t0 && 0 <= t1Msec && 0 <= t0Msec && t1.start <= now && t0.start <= now
      requires IntervalsOk()
      modifies this`enabled, this`ostate, this`edges, this`seen, this`pace, t1, t0
      ensures Valid() && enabled == ostate == on && seen == now
      ensures on ==> edges == [now] && pace == 0
      ensures t1.msec == old(t1.msec) && t0.msec == old(t0.msec)
    {
      enabled := on;
      if !enabled {
        ostate := false;
      } else {
        t1.Reset(now);
        t0.Reset(now);
        ostate := true;
        edges := [now];
        pace := 0;
      }
      seen := now;
    }

    method Reset(now: int)
      requires Valid() && seen <= now
      modifies this, t1, t0
      ensures Valid() && enabled && ostate && edges == [now] && seen == now && pace == 0
    {
      Set(true, now);
    }

    /** The shape of a switched-on generator between the two halves of a poll at `now`. */
    ghost predicate Running(now: int)
      reads this`ostate, this`t1Msec, this`t0Msec, this`edges, this`pace, t1, t0
    {
      && t1 != t0 && 0 <= t1Msec && 0 <= t0Msec && t1.start <= now && t0.start <= now
      && IntervalsOk() && edges != [] && Spaced(edges, t1Msec, t0Msec, pace)
      && ostate == IsRise(|edges| - 1)
      && (if ostate then t1.start else t0.start) == edges[|edges| - 1]
    }

    /** One poll: at most one fall, and at most one rise, even one right after the other. */
    method Step(now: int) returns (r: bool)
      requires Valid() && seen <= now
      modifies this, t1, t0
      ensures Valid() && r == ostate && seen == now && enabled == old(enabled)
      ensures t1Msec == old(t1Msec) && t0Msec == old(t0Msec)
      ensures enabled ==> old(edges) <= edges && |edges| <= |old(edges)| + 2
      ensures enabled ==> forall k :: |old(edges)| <= k < |edges| ==> edges[k] == now
      ensures enabled ==> pace == if now - old(seen) > old(pace) then now - old(seen) else old(pace)
    {
      hide Spaced, IsRise, IntervalsOk, NotOverdue;
      if !enabled {
        ostate := false;
        seen := now;
        return false;
      }
      NotePause(now);
      StepBoth(now);
      seen := now;
      return ostate;
    }

    ghost method NotePause(now: int)
      requires Valid() && enabled && seen <= now
      modifies this`pace
      ensures Running(now) && NotOverdue(seen) && now - seen <= pace
      ensures pace == if now - seen > old(pace) then now - seen else old(pace)
    {
      if now - seen > pace {
        SpacedLonger(edges, t1Msec, t0Msec, pace, now - seen);
        pace := now - seen;
      }
    }

    /** The two tests of a poll, in their order. */
    method StepBoth(now: int)
      requires Running(now) && NotOverdue(seen) && 0 <= now - seen <= pace
      modifies this`ostate, this`edges, t1, t0
      ensures Running(now) && NotOverdue(now)
      ensures old(edges) <= edges && |edges| <= |old(edges)| + 2
      ensures forall k :: |old(edges)| <= k < |edges| ==> edges[k] == now
    {
      hide Spaced, IsRise, IntervalsOk;
      StepFall(now);
      StepRise(now);
    }

    method StepFall(now: int)
      requires Running(now) && NotOverdue(seen) && 0 <= now - seen <= pace
      modifies this`ostate, this`edges, t0
      ensures Running(now) && t0.msec == old(t0.msec)
      ensures ostate == (old(ostate) && !t1.CheckTime(now))
      ensures edges == if old(ostate) && !ostate then old(edges) + [now] else old(edges)
      ensures !old(ostate) ==> NotOverdue(seen) && t0.start == old(t0.start)
      ensures old(ostate) && !ostate ==> t0.start == now
    {
      if ostate && t1.CheckTime(now) {
        ostate := false;
        assert t0.msec == t0Msec;
        t0.SetTiming(t0Msec, now);
        SpacedAppend(edges, t1Msec, t0Msec, pace, now);
        edges := edges + [now];
      }
    }

    method StepRise(now: int)
      requires Running(now) && 0 <= now - seen <= pace
      requires !ostate ==> t0.start == now || NotOverdue(seen)
      modifies this`ostate, this`edges, t1
      ensures Running(now) && t1.msec == old(t1.msec)
      ensures ostate == (old(ostate) || t0.CheckTime(now))
      ensures edges == if !old(ostate) && ostate then old(edges) + [now] else old(edges)
      ensures old(ostate) ==> t1.start == old(t1.start)
      ensures !old(ostate) && ostate ==> t1.start == now
    {
      if !ostate && t0.CheckTime(now) {
        ostate := true;
        assert t1.msec == t1Msec;
        t1.SetTiming(t1Msec, now);
        SpacedAppend(edges, t1Msec, t0Msec, pace, now);
        edges := edges + [now];
      }
    }

    /** The output is high between a rise and the fall after it.  A high phase that ended
        lasted the high interval and at most one pause longer, a low phase the low interval. */
    lemma Phases(k: nat)
      requires Valid() && enabled
      ensures ostate <==> |edges| % 2 == 1
      ensures 2 * k + 1 < |edges| ==> t1Msec <= edges[2 * k + 1] - edges[2 * k] <= t1Msec + pace
      ensures 2 * k + 2 < |edges| ==> t0Msec <= edges[2 * k + 2] - edges[2 * k + 1] <= t0Msec + pace
    {
      if 2 * k + 1 < |edges| { assert !IsRise(2 * k + 1); }
      if 2 * k + 2 < |edges| { assert IsRise(2 * k + 2); }
    }

    /** Polled at least every `pace` milliseconds, the k-th rise comes no earlier than k
        periods after switching on and no later than 2k pauses after that. */
    lemma KthRise(k: nat)
      requires Valid() && enabled && 2 * k < |edges|
      ensures edges[0] + k * (t1Msec + t0Msec) <= edges[2 * k]
           <= edges[0] + k * (t1Msec + t0Msec) + 2 * k * pace
    {
      RiseWindow(edges, t1Msec, t0Msec, pace, k);
      assert Periods(k, 2 * pace) == 2 * k * pace;
    }

    /** The last call came before the window of the rise after the last one recorded closed. */
    lemma NextRiseIsDue()
      requires Valid() && enabled && t1.msec == t1Msec < WAIT_UP_TIME && 0 < t0.msec == t0Msec < WAIT_UP_TIME
      ensures seen < edges[0] + Periods((|edges| - 1) / 2 + 1, t1Msec + t0Msec + 2 * pace)
    {
      var j, c := (|edges| - 1) / 2, t1Msec + t0Msec;
      RiseWindow(edges, t1Msec, t0Msec, pace, j);
      assert Periods(j, c + 2 * pace) == Periods(j, c) + Periods(j, 2 * pace);
      OnePeriodMore(j, c + 2 * pace);
      if !ostate {
        assert |edges| - 1 == 2 * j + 1;
        assert !IsRise(2 * j + 1);
      }
    }

    /** Once the window of the k-th rise has passed, the rise has happened. */
    lemma RiseHasCome(k: nat)
      requires Valid() && enabled && t1.msec == t1Msec < WAIT_UP_TIME && 0 < t0.msec == t0Msec < WAIT_UP_TIME
      requires seen >= edges[0] + k * (t1Msec + t0Msec) + 2 * k * pace
      ensures 2 * k < |edges|
    {
      NextRiseIsDue();
      assert Periods(k, t1Msec + t0Msec + 2 * pace) == k * (t1Msec + t0Msec) + 2 * k * pace;
      if (|edges| - 1) / 2 + 1 <= k {
        PeriodsMonotone((|edges| - 1) / 2 + 1, k, t1Msec + t0Msec + 2 * pace);
      }
    }

    static lemma PeriodsMonotone(j: nat, k: nat, c: nat)
      requires j <= k
      ensures Periods(j, c) <= Periods(k, c)
    {
      assert (k - j) * c >= 0;
    }
  }
}
