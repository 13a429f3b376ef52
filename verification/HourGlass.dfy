/** The hourglass: a timer that runs backwards while it is turned over.

    `Sand` is the ideal hourglass, one grain per millisecond.  The class encodes it with
    one timer and one register, and is shown to agree with it after every sequence of
    calls. */
module HourGlasses {
  import opened PassiveTimers

  const INT_MAX := 0x7FFF_FFFF

  // -------------------------------------------------------- the ideal hourglass

  /** A call that puts the glass upright or upside down at some time. */
  datatype Turn = Turn(at: int, up: bool)

  /** The position during the millisecond that starts at `t`. */
  predicate UprightAt(turns: seq<Turn>, t: int) {
    if turns == [] then false
    else if turns[|turns| - 1].at <= t then turns[|turns| - 1].up
    else UprightAt(turns[..|turns| - 1], t)
  }

  /** The grains still on top at time `t`, of `size` grains in all, `level` at time `since`. */
  function Sand(size: nat, level: nat, turns: seq<Turn>, since: int, t: int): (s: nat)
    requires level <= size && since <= t
    ensures s <= size
    decreases t - since
  {
    if t == since then level
    else
      var s := Sand(size, level, turns, since, t - 1);
      if UprightAt(turns, t - 1) then (if s == 0 then 0 else s - 1)
      else (if s == size then size else s + 1)
  }

  function Sink(s: nat, ms: nat): nat {
    if s <= ms then 0 else s - ms
  }

  function Rise(s: nat, ms: nat, size: nat): nat {
    if s + ms >= size then size else s + ms
  }

  /** While the position does not change the sand falls or rises steadily, up to the end. */
  lemma {:induction false} SteadySand(size: nat, level: nat, turns: seq<Turn>, since: int, t: int, t': int)
    requires level <= size && since <= t <= t'
    requires forall u :: t <= u < t' ==> UprightAt(turns, u) == UprightAt(turns, t)
    ensures var s := Sand(size, level, turns, since, t);
            Sand(size, level, turns, since, t') ==
            if t < t' && UprightAt(turns, t) then Sink(s, t' - t) else if t < t' then Rise(s, t' - t, size) else s
    decreases t' - t
  {
    if t < t' {
      SteadySand(size, level, turns, since, t, t' - 1);
      assert UprightAt(turns, t' - 1) == UprightAt(turns, t);
    }
  }

  /** A turn made at time `now` does not change the past. */
  lemma {:induction false} TurnKeepsPast(size: nat, level: nat, turns: seq<Turn>, turn: Turn, since: int, t: int)
    requires level <= size && since <= t <= turn.at
    ensures Sand(size, level, turns + [turn], since, t) == Sand(size, level, turns, since, t)
    decreases t - since
  {
    if since < t {
      TurnKeepsPast(size, level, turns, turn, since, t - 1);
      assert (turns + [turn])[..|turns|] == turns;
    }
  }

  /** Milliseconds spent upright minus milliseconds spent upside down, from `u` to `t`. */
  function Net(turns: seq<Turn>, u: int, t: int): int
    requires u <= t
    decreases t - u
  {
    if u == t then 0 else Net(turns, u, t - 1) + (if UprightAt(turns, t - 1) then 1 else -1)
  }

  lemma {:induction false} NetSplit(turns: seq<Turn>, u: int, w: int, t: int)
    requires u <= w <= t
    ensures Net(turns, u, t) == Net(turns, u, w) + Net(turns, w, t)
    decreases t - w
  {
    if w < t { NetSplit(turns, u, w, t - 1); }
  }

  /** The last moment at which the glass was full accounts for everything since. */
  lemma {:induction false} SinceLastFull(size: nat, turns: seq<Turn>, since: int, t: int) returns (u: int)
    requires since <= t
    ensures since <= u <= t && Sand(size, size, turns, since, u) == size
    ensures forall w :: u <= w <= t ==>
      Sand(size, size, turns, since, w) - Net(turns, w, t) <= Sand(size, size, turns, since, t)
    decreases t - since
  {
    if Sand(size, size, turns, since, t) == size {
      u := t;
    } else {
      u := SinceLastFull(size, turns, since, t - 1);
      forall w | u <= w <= t
        ensures Sand(size, size, turns, since, w) - Net(turns, w, t) <= Sand(size, size, turns, since, t)
      {
        if w < t {
          assert Sand(size, size, turns, since, w) - Net(turns, w, t - 1) <= Sand(size, size, turns, since, t - 1);
        }
      }
    }
  }

  /** A moment from which the upright time outweighs the other by the whole size, and never
      falls behind again. */
  ghost predicate Drains(turns: seq<Turn>, size: nat, u: int, t: int) {
    u <= t && Net(turns, u, t) >= size && forall w :: u <= w <= t ==> Net(turns, w, t) >= 0
  }

  lemma {:induction false} DrainingBounds(size: nat, turns: seq<Turn>, since: int, u: int, w: int, t: int)
    requires since <= u <= w <= t && Drains(turns, size, u, t)
    ensures Sand(size, size, turns, since, w) <= Net(turns, w, t)
    decreases w - u
  {
    if u < w {
      DrainingBounds(size, turns, since, u, w - 1, t);
      NetSplit(turns, w - 1, w, t);
      assert Net(turns, w - 1, w) == Net(turns, w - 1, w - 1) + (if UprightAt(turns, w - 1) then 1 else -1);
      assert Net(turns, w, t) >= 0;
    }
  }

  /** The glass is empty exactly if there is such a moment since it was started. */
  lemma EmptyIffDrained(size: nat, turns: seq<Turn>, since: int, t: int)
    requires since <= t
    ensures Sand(size, size, turns, since, t) == 0 <==> exists u :: since <= u && Drains(turns, size, u, t)
  {
    if Sand(size, size, turns, since, t) == 0 {
      var u := SinceLastFull(size, turns, since, t);
      assert Drains(turns, size, u, t);
    }
    if u :| since <= u && Drains(turns, size, u, t) {
      DrainingBounds(size, turns, since, u, t, t);
    }
  }

  /** Two glasses of one size under the same turns: their order is kept and their distance
      never grows. */
  lemma {:induction false} SandContracts(size: nat, a: nat, b: nat, turns: seq<Turn>, since: int, t: int, t': int)
    requires a <= b <= size && since <= t <= t'
    ensures Sand(size, a, turns, since, t) <= Sand(size, b, turns, since, t)
    ensures Sand(size, b, turns, since, t') - Sand(size, a, turns, since, t')
         <= Sand(size, b, turns, since, t) - Sand(size, a, turns, since, t)
    decreases t' - since
  {
    if t < t' {
      SandContracts(size, a, b, turns, since, t, t' - 1);
      SandContracts(size, a, b, turns, since, t' - 1, t' - 1);
    } else if since < t {
      SandContracts(size, a, b, turns, since, t - 1, t - 1);
    }
  }

  /** The sand at `t` is that of a glass restarted at `u` with what it held then. */
  lemma {:induction false} SandSplit(size: nat, level: nat, turns: seq<Turn>, since: int, u: int, t: int)
    requires level <= size && since <= u <= t
    ensures Sand(size, level, turns, since, t) == Sand(size, Sand(size, level, turns, since, u), turns, u, t)
    decreases t - u
  {
    if u < t { SandSplit(size, level, turns, since, u, t - 1); }
  }

  /** Two lists of turns that put the glass in the same positions from `u` up to `t`. */
  ghost predicate SamePositions(turns: seq<Turn>, turns': seq<Turn>, u: int, t: int) {
    forall w :: u <= w < t ==> UprightAt(turns, w) == UprightAt(turns', w)
  }

  lemma {:induction false} PositionsDecide(size: nat, level: nat, turns: seq<Turn>, turns': seq<Turn>, u: int, t: int)
    requires level <= size && u <= t && SamePositions(turns, turns', u, t)
    ensures Sand(size, level, turns, u, t) == Sand(size, level, turns', u, t)
    decreases t - u
  {
    if u < t { PositionsDecide(size, level, turns, turns', u, t - 1); }
  }

  // ------------------------------------------------------------------ the class

  /** Conversion of a 64-bit difference to a C++ int. */
  function ToInt(x: int): int {
    (x + 0x8000_0000) % 0x1_0000_0000 - 0x8000_0000
  }

  lemma ToIntExact(x: int)
    requires -INT_MAX - 1 <= x <= INT_MAX
    ensures ToInt(x) == x
  {
  }

  class HourGlass {
    const t: PassiveTimer
    var state: bool
    var sand: int
    var size: int

    ghost var since: int           // when the glass was started
    ghost var seen: int            // the time of the last call
    ghost var turns: seq<Turn>     // every call of run and rotate since then

    ghost predicate Valid()
      reads this, t
    {
      && 0 <= sand <= size && since <= t.start <= seen
      && (forall u :: t.start <= u ==> UprightAt(turns, u) == state)
      && (forall i :: 0 <= i < |turns| ==> turns[i].at <= seen)
      && sand == Sand(size, size, turns, since, t.start)
      && (state ==> t.msec == sand)
    }

    /** The ideal level at a time not before the last call. */
    ghost function Level(now: int): nat
      requires Valid() && seen <= now
      reads this, t
    {
      Sand(size, size, turns, since, now)
    }

    lemma LevelNow(now: int)
      requires Valid() && seen <= now
      ensures Level(now) == if state then Sink(sand, now - t.start) else Rise(sand, now - t.start, size)
    {
      SteadySand(size, size, turns, since, t.start, now);
    }

    /** While nobody turns the glass its level falls by one per millisecond if it is upright
        and rises by one if it is not, and stops at the ends. */
    lemma LevelMovesOn(now: int, later: int)
      requires Valid() && seen <= now <= later
      ensures state ==> Level(later) == if Level(now) <= later - now then 0 else Level(now) - (later - now)
      ensures !state ==> Level(later) == if Level(now) + (later - now) >= size then size else Level(now) + (later - now)
    {
      LevelNow(now);
      LevelNow(later);
    }

    constructor (now: int)
      ensures Valid() && fresh(t) && size == 0 && !state && since == seen == now && turns == []
    {
      t := new PassiveTimer(now);
      state, sand, size := false, 0, 0;
      since, seen, turns := now, now, [];
    }

    /** Start anew with `msec` grains on top. */
    method Run(msec: int, now: int)
      requires 0 <= msec
      modifies this, t
      ensures Valid() && size == msec && state && since == seen == now && turns == [Turn(now, true)]
      ensures Level(now) == msec
    {
      t.SetTiming(msec, now);
      state := true;
      sand := msec;
      size := msec;
      since, seen, turns := now, now, [Turn(now, true)];
    }

    method Reset(now: int)
      requires 0 <= size
      modifies this, t
      ensures Valid() && size == old(size) && state && since == seen == now && turns == [Turn(now, true)]
      ensures Level(now) == size
    {
      Run(size, now);
    }

    /** Turning the glass changes the direction from now on and never the level. */
    method Rotate(st: bool, now: int) returns (r: bool)
      requires Valid() && seen <= now
      modifies this, t
      ensures Valid() && r == st == state && size == old(size) && since == old(since) && seen == now
      ensures turns == old(turns) + [Turn(now, st)]
      ensures Level(now) == old(Level(now))
      ensures st == old(state) ==> sand == old(sand) && t.start == old(t.start) && t.msec == old(t.msec)
    {
      r := st;
      LevelNow(now);
      ghost var turn := Turn(now, st);
      TurnKeepsPast(size, size, turns, turn, since, now);
      TurnKeepsPast(size, size, turns, turn, since, t.start);
      NewestTurnRules(turns, turn);
      if st != state {
        state := st;
        var cur := t.GetCurrent(now);
        if cur > size {
          cur := size;
        }
        if !state {
          sand := if sand > cur then sand - cur else 0;
          t.SetTiming(cur, now);
        } else {
          sand := sand + cur;
          if sand > size {
            sand := size;
          }
          t.SetTiming(sand, now);
        }
      }
      seen := now;
      turns := turns + [turn];
    }

    static lemma NewestTurnRules(turns: seq<Turn>, turn: Turn)
      ensures forall u :: UprightAt(turns + [turn], u) == if turn.at <= u then turn.up else UprightAt(turns, u)
    {
      assert (turns + [turn])[..|turns|] == turns;
    }

    /** The remaining sand.  The difference is converted to a 32-bit int on the way. */
    function Remain(now: int): int
      reads this, t
    {
      var c := if now - t.start > size then size else now - t.start;
      if !state then (if sand + c > size then size else sand + c)
      else
        var ret := ToInt(sand - c);
        if ret < 0 then 0 else ret
    }

    function Amount(now: int): int
      reads this, t
    {
      size - Remain(now)
    }

    predicate Check(now: int)
      requires t.start <= now
      reads this, t
    {
      state && t.CheckTime(now)
    }

    /** For sizes that fit an int, `remain` and `amount` are exact at every moment. */
    lemma RemainIsLevel(now: int)
      requires Valid() && seen <= now && size <= INT_MAX
      ensures Remain(now) == Level(now) && Amount(now) == size - Level(now) && 0 <= Amount(now) <= size
    {
      LevelNow(now);
      var c := if now - t.start > size then size else now - t.start;
      ToIntExact(sand - c);
    }

    /** For larger sizes `remain` is wrong as soon as the glass has been started. */
    lemma RemainExactIffSizeFits()
      requires Valid() && turns == [Turn(since, true)] && seen == since && t.start == since
      ensures Remain(since) == Level(since) <==> size <= INT_MAX
    {
      LevelNow(since);
      assert UprightAt(turns, since) by { NewestTurnRules([], Turn(since, true)); assert [] + [Turn(since, true)] == turns; }
      assert state;
      assert sand == size;
      assert Remain(since) == (if ToInt(size) < 0 then 0 else ToInt(size));
    }

    /** The glass reports the end exactly if it stands upright and is empty. */
    lemma CheckIsEmpty(now: int)
      requires Valid() && seen <= now && size < WAIT_UP_TIME
      ensures Check(now) <==> state && Level(now) == 0
    {
      LevelNow(now);
    }

    /** What a reported end means for the history of turns. */
    lemma CheckMeansDrained(now: int)
      requires Valid() && seen <= now && size < WAIT_UP_TIME
      ensures Check(now) <==> state && exists u :: since <= u && Drains(turns, size, u, now)
    {
      CheckIsEmpty(now);
      EmptyIffDrained(size, turns, since, now);
    }
  }

  /** The level an hourglass had at an earlier time. */
  ghost function PastLevel(g: HourGlass, u: int): nat
    requires g.Valid() && g.since <= u
    reads g, g.t
  {
    Sand(g.size, g.size, g.turns, g.since, u)
  }

  /** Two hourglasses of one size, started and turned as they may have been up to `u` and
      turned alike from then on: the one with less sand never has more, and their
      distance never grows. */
  lemma GlassesContract(g: HourGlass, h: HourGlass, u: int, now: int)
    requires g.Valid() && h.Valid() && g.size == h.size && g.seen <= now && h.seen <= now
    requires g.since <= u && h.since <= u <= now && SamePositions(g.turns, h.turns, u, now)
    requires PastLevel(g, u) <= PastLevel(h, u)
    ensures g.Level(now) <= h.Level(now)
    ensures h.Level(now) - g.Level(now) <= PastLevel(h, u) - PastLevel(g, u)
  {
    SandSplit(g.size, g.size, g.turns, g.since, u, now);
    SandSplit(h.size, h.size, h.turns, h.since, u, now);
    PositionsDecide(h.size, PastLevel(h, u), h.turns, g.turns, u, now);
    SandContracts(g.size, PastLevel(g, u), PastLevel(h, u), g.turns, u, now, now);
    SandContracts(g.size, PastLevel(g, u), PastLevel(h, u), g.turns, u, u, now);
  }

  /** One turn of both: from the same position the agreement goes on. */
  method RotateBoth(g: HourGlass, h: HourGlass, st: bool, u: int, now: int)
    requires g != h && g.t != h.t && g.Valid() && h.Valid() && g.size == h.size
    requires u <= now && g.seen <= now && h.seen <= now
    requires g.since <= u && h.since <= u && SamePositions(g.turns, h.turns, u, now)
    modifies g, g.t, h, h.t
    ensures g.Valid() && h.Valid() && g.size == h.size == old(g.size) && g.seen == h.seen == now
    ensures g.since == old(g.since) && h.since == old(h.since)
    ensures forall t :: SamePositions(g.turns, h.turns, u, t)
    ensures PastLevel(g, u) == old(PastLevel(g, u)) && PastLevel(h, u) == old(PastLevel(h, u))
  {
    ghost var gs, hs := g.turns, h.turns;
    var _ := g.Rotate(st, now);
    var _ := h.Rotate(st, now);
    ghost var turn := Turn(now, st);
    HourGlass.NewestTurnRules(gs, turn);
    HourGlass.NewestTurnRules(hs, turn);
    TurnKeepsPast(g.size, g.size, gs, turn, g.since, u);
    TurnKeepsPast(h.size, h.size, hs, turn, h.since, u);
  }
}
