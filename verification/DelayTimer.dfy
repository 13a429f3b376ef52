/** The on/off delay of a sampled signal.

    `Output` says what a debouncer should show after a history of samples; the class is a
    state machine with one timer and two waiting flags, and always shows that. */
module DelayTimers {
  import opened PassiveTimers
  import opened HourGlasses

  datatype Sample = Sample(at: int, v: bool)

  datatype Delays = Delays(on: int, off: int) {
    function For(v: bool): int {
      if v then on else off
    }
  }

  // -------------------------------------------------------- the reference debouncer

  /** When the unbroken run of equal samples that ends the history began. */
  function RunStart(h: seq<Sample>): int
    requires h != []
  {
    var n := |h| - 1;
    if n == 0 || h[n - 1].v != h[n].v then h[n].at else RunStart(h[..n])
  }

  /** The place of the sample with which that run began. */
  function RunFrom(h: seq<Sample>): (i: nat)
    requires h != []
    ensures i < |h| && h[i].at == RunStart(h)
    ensures forall j :: i <= j < |h| ==> h[j].v == h[|h| - 1].v
    ensures i > 0 ==> h[i - 1].v != h[|h| - 1].v
  {
    var n := |h| - 1;
    if n == 0 || h[n - 1].v != h[n].v then n else RunFrom(h[..n])
  }

  /** Forgetting samples from before the last run does not change when it began. */
  lemma {:induction false} ForgottenSamples(h: seq<Sample>, k: nat)
    requires h != [] && k <= RunFrom(h)
    ensures RunStart(h[k..]) == RunStart(h)
  {
    var n := |h| - 1;
    if n > 0 && h[n - 1].v == h[n].v {
      ForgottenSamples(h[..n], k);
      assert h[k..][..n - k] == h[..n][k..];
      assert h[k..][n - k] == h[n] && h[k..][n - k - 1] == h[n - 1];
    } else {
      assert h[k..][n - k] == h[n];
      if k < n { assert h[k..][n - k - 1] == h[n - 1]; }
    }
  }

  /** Sample `i` ends a run of equal samples that has lasted for its delay. */
  predicate Sustained(h: seq<Sample>, i: int, d: Delays)
    requires 0 <= i < |h|
  {
    d.For(h[i].v) != WAIT_UP_TIME && h[i].at - RunStart(h[..i + 1]) >= d.For(h[i].v)
  }

  /** The output is the value that was last sustained; before the first one it is false. */
  function Output(h: seq<Sample>, d: Delays): bool {
    if h == [] then false
    else
      var n := |h| - 1;
      if Sustained(h, n, d) then h[n].v else Output(h[..n], d)
  }

  ghost predicate Ordered(h: seq<Sample>) {
    forall i, j :: 0 <= i < j < |h| ==> h[i].at <= h[j].at
  }

  lemma SustainedPrefix(h: seq<Sample>, n: int, i: int, d: Delays)
    requires 0 <= i < n <= |h|
    ensures Sustained(h[..n], i, d) == Sustained(h, i, d)
  {
    assert h[..n][..i + 1] == h[..i + 1];
  }

  /** True was sustained at sample `i`, and false has not been since. */
  ghost predicate TrueSince(h: seq<Sample>, d: Delays, i: int) {
    && 0 <= i < |h| && h[i].v && Sustained(h, i, d)
    && forall j :: i < j < |h| && Sustained(h, j, d) ==> h[j].v
  }

  lemma TrueSinceStep(h: seq<Sample>, d: Delays, i: int)
    requires h != []
    ensures var n := |h| - 1;
            TrueSince(h, d, i) <==>
            if i < n then TrueSince(h[..n], d, i) && (Sustained(h, n, d) ==> h[n].v)
            else i == n && h[n].v && Sustained(h, n, d)
  {
    var n := |h| - 1;
    forall j | 0 <= j < n ensures Sustained(h[..n], j, d) == Sustained(h, j, d) { SustainedPrefix(h, n, j, d); }
    hide Sustained;
  }

  /** The same without recursion. */
  lemma {:induction false} OutputIsLastSustained(h: seq<Sample>, d: Delays)
    ensures Output(h, d) <==> exists i :: TrueSince(h, d, i)
  {
    if h != [] {
      var n := |h| - 1;
      OutputIsLastSustained(h[..n], d);
      forall i ensures TrueSince(h, d, i) <==>
        if i < n then TrueSince(h[..n], d, i) && (Sustained(h, n, d) ==> h[n].v)
        else i == n && h[n].v && Sustained(h, n, d)
      {
        TrueSinceStep(h, d, i);
      }
      hide TrueSince, Sustained;
      if Sustained(h, n, d) && h[n].v {
        assert TrueSince(h, d, n);
      } else if !Sustained(h, n, d) && Output(h[..n], d) {
        var i :| TrueSince(h[..n], d, i);
        if i < n { assert TrueSince(h, d, i); } else { PrefixIndex(h, d, i); }
      }
    }
  }

  lemma PrefixIndex(h: seq<Sample>, d: Delays, i: int)
    requires h != [] && TrueSince(h[..|h| - 1], d, i)
    ensures i < |h| - 1
  {
  }

  /** The output after a sample is told by how long the run of equal samples has lasted: at
      least the on-delay makes it true, at least the off-delay false, less changes nothing. */
  lemma OutputIsPrompt(h: seq<Sample>, d: Delays)
    requires h != [] && d.on < WAIT_UP_TIME && d.off < WAIT_UP_TIME
    ensures var n, waited := |h| - 1, h[|h| - 1].at - RunStart(h);
            Output(h, d) ==
            if h[n].v then (if waited >= d.on then true else Output(h[..n], d))
            else (if waited >= d.off then false else Output(h[..n], d))
  {
    assert h[..|h|] == h;
  }

  // --------------------------------------------------------- lengths of the phases

  /** A run begins no earlier than any sample of the other value. */
  lemma {:induction false} RunStartsAfter(h: seq<Sample>, i: int)
    requires Ordered(h) && 0 <= i < |h| && h[i].v != h[|h| - 1].v
    ensures h[i].at <= RunStart(h)
  {
    var n := |h| - 1;
    if h[n - 1].v == h[n].v {
      RunStartsAfter(h[..n], i);
    }
  }

  predicate Changes(h: seq<Sample>, i: int, d: Delays)
    requires 0 <= i < |h|
  {
    Output(h[..i + 1], d) != Output(h[..i], d)
  }

  lemma ChangeIsSustained(h: seq<Sample>, i: int, d: Delays)
    requires 0 <= i < |h| && Changes(h, i, d)
    ensures Sustained(h, i, d) && Output(h[..i + 1], d) == h[i].v
  {
    assert h[..i + 1][..i] == h[..i];
    SustainedPrefix(h, i + 1, i, d);
  }

  /** Between two changes to different values lies at least the delay of the second: a
      true phase that ends lasts the off-delay, a false phase the on-delay. */
  lemma PhaseLength(h: seq<Sample>, i: int, j: int, d: Delays)
    requires Ordered(h) && 0 <= i < j < |h| && Changes(h, i, d) && Changes(h, j, d) && h[i].v != h[j].v
    ensures h[j].at - h[i].at >= if h[j].v then d.on else d.off
  {
    ChangeIsSustained(h, j, d);
    assert h[..j + 1][i] == h[i] && h[..j + 1][j] == h[j];
    RunStartsAfter(h[..j + 1], i);
  }

  /** The number of output changes among the samples from `a` up to `b`. */
  function ChangeCount(h: seq<Sample>, a: nat, b: nat, d: Delays): nat
    requires a <= b <= |h|
  {
    if a == b then 0 else ChangeCount(h, a, b - 1, d) + (if Changes(h, b - 1, d) then 1 else 0)
  }

  /** `c` delays of length `m`. */
  function Span(c: int, m: nat): int {
    c * m
  }

  lemma OneMore(c: int, m: nat)
    ensures Span(c + 1, m) == Span(c, m) + m && Span(0, m) == 0 && Span(-1, m) <= 0
  {
  }

  lemma NoChange(h: seq<Sample>, b: nat, d: Delays)
    requires 0 < b <= |h| && !Changes(h, b - 1, d)
    ensures Output(h[..b], d) == Output(h[..b - 1], d)
  {
  }

  lemma {:induction false} LastChange(h: seq<Sample>, a: nat, b: nat, d: Delays, m: nat) returns (l: nat)
    requires Ordered(h) && a <= b <= |h| && ChangeCount(h, a, b, d) > 0 && m <= d.on && m <= d.off
    ensures a <= l < b && Changes(h, l, d) && Output(h[..b], d) == h[l].v
    ensures Span(ChangeCount(h, a, b, d) - 1, m) <= h[l].at - h[a].at
  {
    hide Span, Output, Sustained, RunStart, Changes;
    OneMore(ChangeCount(h, a, b - 1, d) - 1, m);
    if Changes(h, b - 1, d) {
      l := b - 1;
      ChangeIsSustained(h, l, d);
      assert h[..l + 1] == h[..b];
      if ChangeCount(h, a, b - 1, d) > 0 {
        var k := LastChange(h, a, b - 1, d, m);
        OutputFlips(h, l, d);
        PhaseLength(h, k, l, d);
      }
    } else {
      l := LastChange(h, a, b - 1, d, m);
      NoChange(h, b, d);
    }
  }

  lemma OutputFlips(h: seq<Sample>, l: nat, d: Delays)
    requires l < |h| && Changes(h, l, d)
    ensures Output(h[..l], d) != Output(h[..l + 1], d)
  {
  }

  /** In any window the output changes at most once more than the shorter delay fits in. */
  lemma ChangesAreRare(h: seq<Sample>, a: nat, b: nat, d: Delays, m: nat)
    requires Ordered(h) && a < b <= |h| && m <= d.on && m <= d.off
    ensures (ChangeCount(h, a, b, d) - 1) * m <= h[b - 1].at - h[a].at
  {
    OneMore(0, m);
    if ChangeCount(h, a, b, d) > 0 {
      var l := LastChange(h, a, b, d, m);
    }
    assert Span(ChangeCount(h, a, b, d) - 1, m) <= h[b - 1].at - h[a].at;
  }

  // ------------------------------------------------------------------- the class

  class DelayTimer {
    const pt: PassiveTimer
    var prevState: bool
    var state: bool
    var delays: Delays
    var waitingOn: bool
    var waitingOff: bool

    ghost var seen: int
    ghost var history: seq<Sample>    // samples since the last set or reset

    ghost predicate Valid()
      reads this, pt
    {
      && state == Output(history, delays) && pt.start <= seen && Ordered(history)
      && !(waitingOn && waitingOff)
      && (history != [] ==> history[|history| - 1].v == prevState && history[|history| - 1].at <= seen)
      && (waitingOn || waitingOff ==>
            && history != [] && prevState == waitingOn && state == waitingOff
            && delays.For(prevState) > 0
            && pt.msec == delays.For(prevState) && pt.start == RunStart(history))
      && (!waitingOn && !waitingOff ==> if history == [] then !state else state == prevState)
    }

    constructor (on: int, off: int, now: int)
      ensures Valid() && fresh(pt) && delays == Delays(on, off) && history == [] && seen == now && !prevState
    {
      pt := new PassiveTimer(now);
      prevState, state, waitingOn, waitingOff := false, false, false, false;
      delays := Delays(on, off);
      seen, history := now, [];
    }

    method Set(on: int, off: int)
      requires Valid()
      modifies this
      ensures Valid() && delays == Delays(on, off) && history == [] && seen == old(seen) && prevState == old(prevState)
    {
      delays := Delays(on, off);
      waitingOn, waitingOff, state := false, false, false;
      history := [];
    }

    method Reset(now: int)
      requires Valid() && seen <= now
      modifies this, pt
      ensures Valid() && delays == old(delays) && history == [] && seen == now && prevState == old(prevState)
    {
      pt.Reset(now);
      waitingOn, waitingOff, state := false, false, false;
      history := [];
      seen := now;
    }

    static lemma NextSample(h: seq<Sample>, s: Sample, d: Delays)
      ensures var h' := h + [s];
              && RunStart(h') == (if h != [] && h[|h| - 1].v == s.v then RunStart(h) else s.at)
              && Output(h', d) == (if d.For(s.v) != WAIT_UP_TIME && s.at - RunStart(h') >= d.For(s.v) then s.v else Output(h, d))
    {
      var h' := h + [s];
      assert h'[..|h|] == h && h'[..|h'|] == h';
    }

    /** One sample: the result is what the reference debouncer shows after it. */
    method Check(st: bool, now: int) returns (r: bool)
      requires Valid() && seen <= now
      modifies this, pt
      ensures Valid() && delays == old(delays) && seen == now
      ensures history == old(history) + [Sample(now, st)]
      ensures r == state == Output(history, delays)
      ensures var waited := now - RunStart(history);
        && (st && waited >= delays.on && delays.on != WAIT_UP_TIME ==> r)
        && (!st && waited >= delays.off && delays.off != WAIT_UP_TIME ==> !r)
        && (st && (waited < delays.on || delays.on == WAIT_UP_TIME) ==> r == old(state))
        && (!st && (waited < delays.off || delays.off == WAIT_UP_TIME) ==> r == old(state))
    {
      hide Output, RunStart, Sustained;
      NextSample(history, Sample(now, st), delays);
      history := history + [Sample(now, st)];
      seen := now;
      prevState := st;
      if waitingOff {
        if pt.CheckTime(now) {
          waitingOff := false;
          if !st {
            state := false;
          }
          return state;
        } else if st {
          waitingOff := false;
        }
        return state;
      }
      if waitingOn {
        if pt.CheckTime(now) {
          waitingOn := false;
          if st {
            state := true;
          }
          return state;
        } else if !st {
          waitingOn := false;
        }
        return state;
      }
      if state != st {
        waitingOn := false;
        waitingOff := false;
        if st {
          if delays.on <= 0 {
            pt.SetTiming(0, now);
            state := st;
            return st;
          }
          pt.SetTiming(delays.on, now);
          waitingOn := true;
        } else {
          if delays.off <= 0 {
            pt.SetTiming(0, now);
            state := st;
            return st;
          }
          pt.SetTiming(delays.off, now);
          waitingOff := true;
        }
      }
      return state;
    }

    /** Asking for the output repeats the last sample. */
    method Get(now: int) returns (r: bool)
      requires Valid() && seen <= now
      modifies this, pt
      ensures Valid() && delays == old(delays) && seen == now
      ensures history == old(history) + [Sample(now, old(prevState))]
      ensures r == Output(history, delays)
    {
      r := Check(prevState, now);
    }

    /** A delay is running exactly if the output differs from the last sample. */
    method IsWaiting(now: int) returns (r: bool)
      requires Valid() && seen <= now
      modifies this, pt
      ensures Valid() && delays == old(delays) && seen == now
      ensures history == old(history) + [Sample(now, old(prevState))]
      ensures r <==> Output(history, delays) != old(prevState)
    {
      var _ := Check(prevState, now);
      r := waitingOff || waitingOn;
    }
  }

  // --------------------------------------- the debouncer and the hourglass together

  /** A glass started at `start` and turned with every sample. */
  function GlassTurns(start: int, h: seq<Sample>): seq<Turn> {
    if h == [] then [Turn(start, true)]
    else
      var n := |h| - 1;
      GlassTurns(start, h[..n]) + [Turn(h[n].at, h[n].v)]
  }

  /** From the beginning of the final run on the glass stands as the run says. */
  lemma {:induction false} GlassFollowsRun(start: int, h: seq<Sample>, u: int)
    requires h != [] && Ordered(h) && RunStart(h) <= u
    ensures UprightAt(GlassTurns(start, h), u) == h[|h| - 1].v
  {
    var n := |h| - 1;
    var ts := GlassTurns(start, h);
    assert ts[..|ts| - 1] == GlassTurns(start, h[..n]);
    if n > 0 && h[n - 1].v == h[n].v {
      GlassFollowsRun(start, h[..n], u);
    }
  }

  /** Whenever the debouncer sees a sustained true sample, in particular when it turns true,
      a glass of the size of the on-delay, started before that run, has run out. */
  lemma SustainedEmptiesGlass(start: int, h: seq<Sample>, on: nat)
    requires h != [] && Ordered(h) && h[|h| - 1].v && start <= RunStart(h)
    requires h[|h| - 1].at - RunStart(h) >= on
    ensures UprightAt(GlassTurns(start, h), h[|h| - 1].at)
    ensures Sand(on, on, GlassTurns(start, h), start, h[|h| - 1].at) == 0
  {
    var n := |h| - 1;
    var ts, t, t' := GlassTurns(start, h), RunStart(h), h[n].at;
    forall u | t <= u ensures UprightAt(ts, u) { GlassFollowsRun(start, h, u); }
    SteadySand(on, on, ts, start, t, t');
  }

  /** The glass was started between two samples, after the first `k` of the debouncer's
      history, and has been turned with every sample since. */
  ghost predicate Follows(dt: DelayTimer, g: HourGlass, k: nat)
    reads dt, dt.pt, g, g.t
  {
    && dt.Valid() && g.Valid() && g.t != dt.pt
    && k <= |dt.history| && g.turns == GlassTurns(g.since, dt.history[k..])
    && (forall j :: k <= j < |dt.history| ==> g.since <= dt.history[j].at)
  }

  /** What a change to true at the last sample means for a glass that follows. */
  lemma RiseEmptiesGlass(start: int, h: seq<Sample>, k: nat, d: Delays)
    requires h != [] && Ordered(h) && k <= RunFrom(h) && 0 <= d.on
    requires forall j :: k <= j < |h| ==> start <= h[j].at
    requires Changes(h, |h| - 1, d) && Output(h, d)
    ensures UprightAt(GlassTurns(start, h[k..]), h[|h| - 1].at)
    ensures Sand(d.on, d.on, GlassTurns(start, h[k..]), start, h[|h| - 1].at) == 0 && d.on != WAIT_UP_TIME
  {
    hide GlassTurns, Sand, UprightAt, Output;
    var n := |h| - 1;
    assert h[..n + 1] == h;
    ChangeIsSustained(h, n, d);
    ForgottenSamples(h, k);
    assert h[k..][|h[k..]| - 1] == h[n];
    SustainedEmptiesGlass(start, h[k..], d.on);
  }

  /** Whenever the debouncer turns true, a glass of the on-delay that was started before the
      run of true samples, wherever in the history, reports the end. */
  lemma RiseMeansGlassChecks(dt: DelayTimer, g: HourGlass, k: nat)
    requires Follows(dt, g, k) && dt.history != [] && k <= RunFrom(dt.history)
    requires 0 <= g.size == dt.delays.on <= WAIT_UP_TIME && g.seen <= dt.history[|dt.history| - 1].at
    requires Changes(dt.history, |dt.history| - 1, dt.delays) && dt.state
    ensures g.Check(dt.history[|dt.history| - 1].at)
  {
    hide GlassTurns, Sand, Output, RunFrom, Changes, Ordered;
    var now := dt.history[|dt.history| - 1].at;
    RiseEmptiesGlass(g.since, dt.history, k, dt.delays);
    g.CheckIsEmpty(now);
    assert UprightAt(g.turns, now) == g.state;
  }

  /** Starting the glass, at any time, is where following begins. */
  method StartGlass(dt: DelayTimer, g: HourGlass, size: int, now: int)
    requires dt.Valid() && g.t != dt.pt && 0 <= size
    modifies g, g.t
    ensures Follows(dt, g, |dt.history|) && g.size == size && g.seen == now
  {
    g.Run(size, now);
    assert dt.history[|dt.history|..] == [];
  }

  /** One sample for both: following goes on, and if the debouncer turns true the glass
      reports the end. */
  method CheckAndRotate(dt: DelayTimer, g: HourGlass, st: bool, now: int, ghost k: nat) returns (r: bool)
    requires Follows(dt, g, k) && dt.seen <= now && g.seen <= now
    modifies dt, dt.pt, g, g.t
    ensures Follows(dt, g, k) && dt.seen == g.seen == now
    ensures dt.delays == old(dt.delays) && g.size == old(g.size) && g.since == old(g.since)
    ensures dt.history == old(dt.history) + [Sample(now, st)] && r == Output(dt.history, dt.delays)
    ensures r && !old(dt.state) && k <= RunFrom(dt.history) && 0 <= g.size == dt.delays.on <= WAIT_UP_TIME ==>
      g.Check(now)
  {
    hide GlassTurns, Sand, RunFrom, Sustained, UprightAt, Output, Ordered, Changes, RunStart;
    ghost var h, was := dt.history, dt.state;
    assert was == Output(h, dt.delays);
    r := dt.Check(st, now);
    var _ := g.Rotate(st, now);
    GlassTurnsStep(g.since, h, k, Sample(now, st));
    if r && !was && k <= RunFrom(dt.history) && 0 <= g.size == dt.delays.on <= WAIT_UP_TIME {
      FlipIsChange(h, Sample(now, st), dt.delays);
      RiseMeansGlassChecks(dt, g, k);
    }
  }

  lemma GlassTurnsStep(start: int, h: seq<Sample>, k: nat, s: Sample)
    requires k <= |h|
    ensures GlassTurns(start, (h + [s])[k..]) == GlassTurns(start, h[k..]) + [Turn(s.at, s.v)]
  {
    assert (h + [s])[k..][..|h| - k] == h[k..] && (h + [s])[k..][|h| - k] == s;
  }

  lemma FlipIsChange(h: seq<Sample>, s: Sample, d: Delays)
    requires Output(h + [s], d) != Output(h, d)
    ensures Changes(h + [s], |h|, d)
  {
    assert (h + [s])[..|h|] == h && (h + [s])[..|h| + 1] == h + [s];
  }
}
