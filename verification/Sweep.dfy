/** The value sweep of the sensor simulator: up from the lower to the upper bound in equal
    steps, clamped, and down again. */
module Sweep {

  /** The number of steps from one bound to the other. */
  function Steps(lo: int, hi: int, step: int): nat
    requires lo <= hi && 0 < step
    decreases hi - lo
  {
    if lo == hi then 0 else if lo + step >= hi then 1 else Steps(lo + step, hi, step) + 1
  }

  lemma Distribute(r: int, step: int)
    ensures (r + 1) * step == r * step + step && 0 * step == 0
  {
  }

  /** Fewer than all steps stay short of the other bound; all of them reach it. */
  lemma {:induction false} StepsReach(lo: int, hi: int, step: int, r: nat)
    requires lo <= hi && 0 < step && r < Steps(lo, hi, step)
    ensures (r + 1) * step == r * step + step && lo + r * step < hi
    ensures r + 1 < Steps(lo, hi, step) <==> lo + (r + 1) * step < hi
    decreases r
  {
    Distribute(r, step);
    if r > 0 {
      StepsReach(lo + step, hi, step, r - 1);
      Distribute(r - 1, step);
    }
  }

  /** The number of steps is the distance divided by the step, rounded up. */
  lemma StepsIsCeiling(lo: int, hi: int, step: int)
    requires lo < hi && 0 < step
    ensures var n := Steps(lo, hi, step);
            n > 0 && (n - 1) * step < hi - lo <= n * step
  {
    StepsReach(lo, hi, step, Steps(lo, hi, step) - 1);
  }

  /** The triangle wave: the value set in iteration `k`. */
  function Triangle(lo: int, hi: int, step: int, k: nat): int
    requires lo <= hi && 0 < step
  {
    var n := Steps(lo, hi, step);
    if n == 0 then lo else Wave(lo, hi, step, n, k % (2 * n))
  }

  /** One period of it, of `2 * n` iterations. */
  function Wave(lo: int, hi: int, step: int, n: nat, r: nat): int {
    if r <= n then Min(lo + r * step, hi) else Max(hi - (r - n) * step, lo)
  }

  function Min(a: int, b: int): int { if a <= b then a else b }
  function Max(a: int, b: int): int { if a >= b then a else b }

  lemma TriangleIsPeriodic(lo: int, hi: int, step: int, k: nat)
    requires lo < hi && 0 < step
    ensures Triangle(lo, hi, step, k + 2 * Steps(lo, hi, step)) == Triangle(lo, hi, step, k)
  {
    StepsIsCeiling(lo, hi, step);
    var p := 2 * Steps(lo, hi, step);
    hide Steps;
    Distribute(k / p, p);
    Remainder(k + p, p, k / p + 1, k % p);
  }

  /** The shape of the wave: from the lower bound in equal steps up to the upper one, which
      cuts the last step short, and down again in the same way. */
  lemma TriangleShape(lo: int, hi: int, step: int, r: nat)
    requires lo < hi && 0 < step && r <= Steps(lo, hi, step)
    ensures var n := Steps(lo, hi, step);
            && n > 0
            && Triangle(lo, hi, step, r) == (if lo + r * step <= hi then lo + r * step else hi)
            && Triangle(lo, hi, step, n + r) == (if hi - r * step >= lo then hi - r * step else lo)
            && Triangle(lo, hi, step, 0) == lo && Triangle(lo, hi, step, n) == hi
  {
    StepsIsCeiling(lo, hi, step);
    var n := Steps(lo, hi, step);
    hide Steps;
    assert 0 * step == 0;
    Remainder(0, 2 * n, 0, 0);
    Remainder(n, 2 * n, 0, n);
    Remainder(r, 2 * n, 0, r);
    if r < n {
      Remainder(n + r, 2 * n, 0, n + r);
    } else {
      Remainder(n + r, 2 * n, 1, 0);
    }
  }

  lemma NotNegative(r: nat, step: nat)
    ensures r * step >= 0
  {
  }

  lemma TriangleStaysInside(lo: int, hi: int, step: int, k: nat)
    requires lo <= hi && 0 < step
    ensures lo <= Triangle(lo, hi, step, k) <= hi
  {
    var n := Steps(lo, hi, step);
    if n > 0 {
      var r := k % (2 * n);
      NotNegative(if r <= n then r else r - n, step);
    }
  }

  /** The two counters of the loop before iteration `k`. */
  ghost predicate LoopState(lo: int, hi: int, step: int, k: nat, i: int, j: int)
    requires lo <= hi && 0 < step
  {
    var n := Steps(lo, hi, step);
    if k == 0 then i == lo - step && j == hi
    else if n == 0 then i == lo && j == hi
    else
      Counters(lo, hi, step, n, (k - 1) % (2 * n), i, j)
  }

  predicate Counters(lo: int, hi: int, step: int, n: nat, r: nat, i: int, j: int) {
    if r < n then i == lo + r * step && j == hi else i == hi && j == hi - (r - n) * step
  }

  /** What one iteration does to the counters, and the value it sets. */
  function Iterate(lo: int, hi: int, step: int, i: int, j: int): (int, int, int)
  {
    if i >= hi then
      var j' := Max(j - step, lo);
      if j' <= lo then (lo, hi, j') else (i, j', j')
    else
      var i' := Min(i + step, hi);
      (i', j, i')
  }

  lemma AtLeastOnce(d: int, p: nat)
    ensures d >= 1 ==> d * p >= p
    ensures d <= -1 ==> d * p + p <= 0
  {
  }

  lemma Remainder(x: nat, p: nat, q: nat, r: nat)
    requires r < p && x == q * p + r
    ensures x % p == r
  {
    var d := x / p - q;
    assert x == (x / p) * p + x % p;
    assert d * p == r - x % p;
    AtLeastOnce(d, p);
  }

  lemma NextPhase(k: nat, p: nat)
    requires p > 0
    ensures (k + 1) % p == if k % p == p - 1 then 0 else k % p + 1
  {
    var q, r := k / p, k % p;
    assert k == q * p + r;
    Distribute(q, p);
    Remainder(k + 1, p, if r == p - 1 then q + 1 else q, if r == p - 1 then 0 else r + 1);
  }

  /** One iteration moves both counters on by one phase and sets its value. */
  lemma OnePhaseOn(lo: int, hi: int, step: int, r: nat, i: int, j: int)
    requires lo < hi && 0 < step && r < 2 * Steps(lo, hi, step) && Counters(lo, hi, step, Steps(lo, hi, step), r, i, j)
    ensures var n := Steps(lo, hi, step);
            var q := if r == 2 * n - 1 then 0 else r + 1;
            var (i', j', v) := Iterate(lo, hi, step, i, j);
            Counters(lo, hi, step, n, q, i', j') && v == Wave(lo, hi, step, n, q)
  {
    hide Steps;
    StepsReach(lo, hi, step, if r < Steps(lo, hi, step) then r else r - Steps(lo, hi, step));
  }

  lemma NoSteps(lo: int, hi: int, step: int)
    requires lo <= hi && 0 < step
    ensures Steps(lo, hi, step) == 0 <==> lo == hi
  {
  }

  lemma IterationFollowsTriangle(lo: int, hi: int, step: int, k: nat, i: int, j: int)
    requires lo <= hi && 0 < step && LoopState(lo, hi, step, k, i, j)
    ensures var (i', j', v) := Iterate(lo, hi, step, i, j);
            LoopState(lo, hi, step, k + 1, i', j') && v == Triangle(lo, hi, step, k)
  {
    hide Steps, Counters, Wave;
    NoSteps(lo, hi, step);
    var n := Steps(lo, hi, step);
    if k == 0 {
      FirstIteration(lo, hi, step, n);
    } else if n > 0 {
      NextPhase(k - 1, 2 * n);
      OnePhaseOn(lo, hi, step, (k - 1) % (2 * n), i, j);
    }
  }

  lemma FirstIteration(lo: int, hi: int, step: int, n: nat)
    ensures lo <= hi ==> Counters(lo, hi, step, n, 0, lo, hi) || n == 0
    ensures lo <= hi ==> Wave(lo, hi, step, n, 0) == lo
    ensures n > 0 ==> 0 % (2 * n) == 0
  {
    Distribute(0, step);
    if n > 0 { Remainder(0, 2 * n, 0, 0); }
  }

  /** The simulator: bounds given the wrong way round are swapped, a step that is not
      positive is an error, and the endless loop is followed for `iterations` turns. */
  method Simulate(amin: int, amax: int, astep: int, iterations: nat) returns (ok: bool, values: seq<int>)
    ensures ok <==> astep > 0
    ensures ok ==> |values| == iterations
    ensures ok ==> forall k :: 0 <= k < iterations ==>
      values[k] == if amin <= amax then Triangle(amin, amax, astep, k) else Triangle(amax, amin, astep, k)
  {
    hide Steps, Triangle;
    var lo, hi := amin, amax;
    if lo > hi {
      lo, hi := hi, lo;
    }
    values := [];
    if astep <= 0 {
      return false, [];
    }
    ok := true;
    var i, j := lo - astep, hi;
    for k := 0 to iterations
      invariant LoopState(lo, hi, astep, k, i, j)
      invariant |values| == k && forall m :: 0 <= m < k ==> values[m] == Triangle(lo, hi, astep, m)
    {
      IterationFollowsTriangle(lo, hi, astep, k, i, j);
      var val;
      if i >= hi {
        j := j - astep;
        if j < lo {
          j := lo;
        }
        val := j;
        if j <= lo {
          i := lo;
          j := hi;
        }
      } else {
        i := i + astep;
        if i > hi {
          i := hi;
        }
        val := i;
      }
      values := values + [val];
    }
  }
}
