/** Placeholder substitution in tag texts: `%v`, `%min` and `%max`.

    The program replaces the three placeholders one after another with a
    search-and-replace loop.  `Subst` is the meaning a reader expects instead:
    one left-to-right pass that never looks again at text it has inserted. */
module Templates {

  datatype Option<+T> = None | Some(value: T)

  /** A C++ `long`. */
  type Long = x: int | -0x8000_0000_0000_0000 <= x < 0x8000_0000_0000_0000 witness 0

  const VALUE := "%v"
  const MIN := "%min"
  const MAX := "%max"

  // ---------------------------------------------------------------- numbers

  predicate IsNumeral(c: char) {
    c == '-' || '0' <= c <= '9'
  }

  /** What a rendered number looks like: non-empty, only digits and minus signs. */
  predicate Plain(s: string) {
    s != "" && forall i :: 0 <= i < |s| ==> IsNumeral(s[i])
  }

  function Digits(n: nat): (s: string)
    ensures Plain(s)
  {
    var last := '0' + (n % 10) as char;
    if n < 10 then [last] else Digits(n / 10) + [last]
  }

  /** std::to_string of an integer. */
  function Decimal(n: int): (s: string)
    ensures Plain(s)
  {
    if n < 0 then "-" + Digits(-n) else Digits(n)
  }

  /** The number that a row of digits denotes. */
  function ValueOf(s: string): int {
    if s == "" then 0 else 10 * ValueOf(s[..|s| - 1]) + (s[|s| - 1] as int - '0' as int)
  }

  lemma {:induction false} DigitsReadBack(n: nat)
    ensures ValueOf(Digits(n)) == n && forall i :: 0 <= i < |Digits(n)| ==> '0' <= Digits(n)[i] <= '9'
  {
    var last := '0' + (n % 10) as char;
    if n < 10 {
      assert [last][..0] == "" && ValueOf("") == 0;
    } else {
      DigitsReadBack(n / 10);
      assert (Digits(n / 10) + [last])[..|Digits(n / 10)|] == Digits(n / 10);
    }
  }

  /** Printed numbers can be read back. */
  lemma DecimalReadsBack(n: int)
    ensures n >= 0 ==> Decimal(n)[0] != '-' && ValueOf(Decimal(n)) == n
    ensures n < 0 ==> Decimal(n)[0] == '-' && ValueOf(Decimal(n)[1..]) == -n
  {
    DigitsReadBack(if n < 0 then -n else n);
    assert n < 0 ==> Decimal(n)[1..] == Digits(-n);
  }

  // ------------------------------------------------------- search and replace

  predicate StartsWith(s: string, p: string) {
    |p| <= |s| && s[..|p|] == p
  }

  predicate Contains(s: string, p: string) {
    StartsWith(s, p) || (s != "" && Contains(s[1..], p))
  }

  /** std::string::find: the least position at or after `pos` where `p` occurs. */
  function Find(s: string, p: string, pos: nat): (r: Option<nat>)
    requires pos <= |s|
    ensures r.Some? ==> pos <= r.value && r.value + |p| <= |s| && StartsWith(s[r.value..], p)
    decreases |s| - pos
  {
    if StartsWith(s[pos..], p) then Some(pos)
    else if pos == |s| then None
    else Find(s, p, pos + 1)
  }

  lemma {:induction false} FindIsFirst(s: string, p: string, pos: nat, i: nat)
    requires pos <= i <= |s|
    requires Find(s, p, pos).Some? ==> i < Find(s, p, pos).value
    ensures !StartsWith(s[i..], p)
    decreases i - pos
  {
    if pos < i { FindIsFirst(s, p, pos + 1, i); }
  }

  /** Every occurrence of `from`, found left to right, becomes `to`. */
  function Replaced(s: string, from: string, to: string): string
    decreases |s|
  {
    if from == "" || s == "" then s
    else if StartsWith(s, from) then to + Replaced(s[|from|..], from, to)
    else [s[0]] + Replaced(s[1..], from, to)
  }

  lemma {:induction false} ReplacedSkips(s: string, from: string, to: string, n: nat)
    requires n <= |s| && from != ""
    requires forall i :: 0 <= i < n ==> !StartsWith(s[i..], from)
    ensures Replaced(s, from, to) == s[..n] + Replaced(s[n..], from, to)
  {
    if n == 0 {
      assert s[..0] == "" && s[0..] == s;
    } else {
      assert s[0..] == s;
      forall i | 0 <= i < n - 1 ensures !StartsWith(s[1..][i..], from) {
        assert s[1..][i..] == s[i + 1..];
      }
      ReplacedSkips(s[1..], from, to, n - 1);
      assert s[1..][n - 1..] == s[n..];
      assert [s[0]] + s[1..][..n - 1] == s[..n];
    }
  }

  /** Nothing is found before the place the search reports, or before the end. */
  lemma NothingSooner(s: string, k: nat, from: string, n: nat)
    requires k + n <= |s|
    requires Find(s, from, k).Some? ==> k + n <= Find(s, from, k).value
    ensures forall i :: 0 <= i < n ==> !StartsWith(s[k..][i..], from)
  {
    hide Find, StartsWith;
    forall i | 0 <= i < n ensures !StartsWith(s[k..][i..], from) {
      FindIsFirst(s, from, k, k + i);
      SuffixOfSuffix(s, k, i);
    }
  }

  /** Without a further occurrence the rest of the text, `s[k..]`, is final. */
  lemma NoOccurrence(s: string, k: nat, from: string, to: string)
    requires k <= |s| && from != "" && Find(s, from, k).None?
    ensures Replaced(s[k..], from, to) == s[k..]
  {
    assert Replaced("", from, to) == "";
    hide Replaced, Find, StartsWith;
    NothingSooner(s, k, from, |s| - k);
    ReplacedSkips(s[k..], from, to, |s| - k);
    assert s[k..][..|s| - k] == s[k..] && s[k..][|s| - k..] == "";
  }

  /** Up to the next occurrence, at `p`, the text stays; the occurrence is replaced. */
  lemma NextOccurrence(s: string, k: nat, p: nat, from: string, to: string)
    requires k <= |s| && from != "" && Find(s, from, k) == Some(p)
    ensures Replaced(s[k..], from, to) == s[k..p] + Replaced(s[p..], from, to)
    ensures Replaced(s[p..], from, to) == to + Replaced(s[p + |from|..], from, to)
  {
    hide Replaced, Find, StartsWith;
    NothingSooner(s, k, from, p - k);
    ReplacedSkips(s[k..], from, to, p - k);
    assert s[k..][..p - k] == s[k..p] && s[k..][p - k..] == s[p..];
    ReplacedAtOccurrence(s[p..], from, to);
    assert s[p..][|from|..] == s[p + |from|..];
  }

  lemma ReplacedAtOccurrence(s: string, from: string, to: string)
    requires from != "" && StartsWith(s, from)
    ensures |from| <= |s| && Replaced(s, from, to) == to + Replaced(s[|from|..], from, to)
  {
  }

  lemma SuffixOfSuffix(s: string, i: nat, j: nat)
    requires i + j <= |s|
    ensures s[i..][j..] == s[i + j..]
  {
  }

  lemma Associative(a: string, b: string, c: string, d: string)
    ensures a + (b + (c + d)) == (a + b + c) + d
  {
    assert a + (b + (c + d)) == a + b + c + d;
  }

  lemma SpliceParts(res: string, done: nat, p: nat, q: nat, to: string)
    requires done <= p <= q <= |res|
    ensures (res[..p] + to + res[q..])[p + |to|..] == res[q..]
    ensures (res[..p] + to + res[q..])[..p + |to|] == res[..done] + res[done..p] + to
  {
    assert res[..p] == res[..done] + res[done..p];
  }

  /** `to` takes the place of what stands between `p` and `q`. */
  function Spliced(s: string, p: nat, q: nat, to: string): (r: string)
    requires p <= q <= |s|
    ensures |r| == |s| - (q - p) + |to|
  {
    s[..p] + to + s[q..]
  }

  /** What the loop below will arrive at when `s[..done]` is final and `s[done..]` is still
      source text. */
  function Outcome(s: string, done: nat, from: string, to: string): string
    requires done <= |s|
  {
    s[..done] + Replaced(s[done..], from, to)
  }

  lemma OutcomeAtEnds(s: string, done: nat, from: string, to: string)
    requires done <= |s| && from != ""
    ensures Outcome(s, 0, from, to) == Replaced(s, from, to)
    ensures Find(s, from, done).None? ==> Outcome(s, done, from, to) == s
  {
    assert s[..0] == "" && s[0..] == s;
    if Find(s, from, done).None? { NoOccurrence(s, done, from, to); }
  }

  /** One turn of the loop: splicing `to` in moves the border between final text and source
      text, and nothing else. */
  lemma {:induction false} SpliceStep(s: string, done: nat, p: nat, from: string, to: string)
    requires from != "" && done <= |s| && Find(s, from, done) == Some(p)
    ensures Outcome(Spliced(s, p, p + |from|, to), p + |to|, from, to) == Outcome(s, done, from, to)
  {
    NextOccurrence(s, done, p, from, to);
    SpliceParts(s, done, p, p + |from|, to);
    Associative(s[..done], s[done..p], to, Replaced(s[p + |from|..], from, to));
  }

  /** The program's loop: replace the occurrence found, go on behind the inserted text. */
  method ReplaceAll(src: string, from: string, to: string) returns (res: string)
    ensures res == Replaced(src, from, to)
  {
    hide Find, StartsWith, Spliced, Outcome;
    res := src;
    if from == "" {
      return;
    }
    var pos := Find(res, from, 0);
    ghost var done: nat := 0;
    OutcomeAtEnds(src, 0, from, to);
    while pos.Some?
      invariant done <= |res|
      invariant pos == Find(res, from, done)
      invariant Replaced(src, from, to) == Outcome(res, done, from, to)
      decreases |res| - done
    {
      var p := pos.value;
      SpliceStep(res, done, p, from, to);
      res := Spliced(res, p, p + |from|, to);
      done := p + |to|;
      pos := Find(res, from, p + |to|);
    }
    OutcomeAtEnds(res, done, from, to);
  }

  // ------------------------------------------- sequential equals simultaneous

  /** The three replacements in the order the program applies them. */
  function Sequential(s: string, v: string, lo: string, hi: string): string {
    Replaced(Replaced(Replaced(s, VALUE, v), MIN, lo), MAX, hi)
  }

  /** One simultaneous left-to-right pass. */
  function Subst(s: string, v: string, lo: string, hi: string): string
    decreases |s|
  {
    if s == "" then ""
    else if StartsWith(s, VALUE) then v + Subst(s[2..], v, lo, hi)
    else if StartsWith(s, MIN) then lo + Subst(s[4..], v, lo, hi)
    else if StartsWith(s, MAX) then hi + Subst(s[4..], v, lo, hi)
    else [s[0]] + Subst(s[1..], v, lo, hi)
  }

  predicate HasPlaceholder(s: string) {
    Contains(s, VALUE) || Contains(s, MIN) || Contains(s, MAX)
  }

  lemma {:induction false} NotContained(s: string, p: string)
    requires p != "" && p[0] == '%' && forall i :: 0 <= i < |s| ==> s[i] != '%'
    ensures !Contains(s, p)
  {
    if |p| <= |s| { assert s[..|p|][0] == s[0]; }
    if s != "" { NotContained(s[1..], p); }
  }

  /** Text without a percent sign is passed over by every replacement. */
  lemma {:induction false} PercentFreeSkips(w: string, rest: string, from: string, to: string)
    requires from != "" && from[0] == '%'
    requires forall i :: 0 <= i < |w| ==> w[i] != '%'
    ensures Replaced(w + rest, from, to) == w + Replaced(rest, from, to)
  {
    var s := w + rest;
    forall i | 0 <= i < |w| ensures !StartsWith(s[i..], from) {
      assert s[i..][0] == w[i];
    }
    ReplacedSkips(s, from, to, |w|);
    assert s[..|w|] == w && s[|w|..] == rest;
  }

  /** Inserting numbers never creates a word of letters that was not there. */
  lemma {:induction false} NoNewWords(y: string, from: string, to: string, w: string)
    requires from != "" && from[0] == '%' && Plain(to)
    requires forall i :: 0 <= i < |w| ==> w[i] != '%' && !IsNumeral(w[i])
    requires StartsWith(Replaced(y, from, to), w)
    ensures StartsWith(y, w)
    decreases |w|
  {
    if w != "" && y != "" {
      var x := Replaced(y, from, to);
      assert x[0] == w[0];
      assert !StartsWith(y, from);
      assert x[1..] == Replaced(y[1..], from, to);
      assert x[1..][..|w| - 1] == w[1..] by { assert x[..|w|][1..] == w[1..]; }
      NoNewWords(y[1..], from, to, w[1..]);
      assert y[..|w|] == [y[0]] + y[1..][..|w| - 1];
    }
  }

  lemma {:induction false} ReplacedHead(c: char, y: string, from: string, to: string)
    requires from != "" && !StartsWith([c] + y, from)
    ensures Replaced([c] + y, from, to) == [c] + Replaced(y, from, to)
  {
    assert ([c] + y)[1..] == y;
  }

  /** A placeholder other than the one being replaced survives the replacement. */
  lemma {:induction false} OtherPlaceholderSurvives(p: string, rest: string, from: string, to: string)
    requires p in {MIN, MAX} && from in {VALUE, MIN, MAX} && from != p
    ensures Replaced(p + rest, from, to) == p + Replaced(rest, from, to)
  {
    var s := p + rest;
    assert s[..4] == p;
    forall i | 0 <= i < 4 ensures !StartsWith(s[i..], from) {
      assert s[i..][0] == p[i];
      if i == 0 {
        assert s[0..] == s && s[1] == p[1] && s[2] == p[2];
        assert s[..|from|][1] == s[1];
        assert |from| == 4 ==> s[..|from|][2] == s[2];
      }
    }
    ReplacedSkips(s, from, to, 4);
    assert s[4..] == rest;
  }

  lemma {:induction false} SequentialIsSimultaneous(s: string, v: string, lo: string, hi: string)
    requires Plain(v) && Plain(lo)
    ensures Sequential(s, v, lo, hi) == Subst(s, v, lo, hi)
    decreases |s|
  {
    if s == "" {
    } else if StartsWith(s, VALUE) {
      var rest := s[2..];
      SequentialIsSimultaneous(rest, v, lo, hi);
      var a := Replaced(rest, VALUE, v);
      PercentFreeSkips(v, a, MIN, lo);
      PercentFreeSkips(v, Replaced(a, MIN, lo), MAX, hi);
    } else if StartsWith(s, MIN) {
      var rest := s[4..];
      assert s == MIN + rest;
      SequentialIsSimultaneous(rest, v, lo, hi);
      OtherPlaceholderSurvives(MIN, rest, VALUE, v);
      var a := Replaced(rest, VALUE, v);
      assert (MIN + a)[4..] == a && StartsWith(MIN + a, MIN);
      PercentFreeSkips(lo, Replaced(a, MIN, lo), MAX, hi);
    } else if StartsWith(s, MAX) {
      var rest := s[4..];
      assert s == MAX + rest;
      SequentialIsSimultaneous(rest, v, lo, hi);
      OtherPlaceholderSurvives(MAX, rest, VALUE, v);
      var a := Replaced(rest, VALUE, v);
      OtherPlaceholderSurvives(MAX, a, MIN, lo);
      var b := Replaced(a, MIN, lo);
      assert (MAX + b)[4..] == b && StartsWith(MAX + b, MAX);
    } else {
      PlainCharacterStays(s[0], s[1..], v, lo, hi);
      SequentialIsSimultaneous(s[1..], v, lo, hi);
    }
  }

  lemma {:induction false} NoNewPlaceholder(c: char, y: string, from: string, to: string, p: string)
    requires from != "" && from[0] == '%' && Plain(to) && p in {MIN, MAX}
    requires StartsWith([c] + Replaced(y, from, to), p)
    ensures StartsWith([c] + y, p)
  {
    var x := [c] + Replaced(y, from, to);
    assert Replaced(y, from, to)[..3] == x[..4][1..] == p[1..];
    NoNewWords(y, from, to, p[1..]);
    assert ([c] + y)[..4] == [x[0]] + y[..3] == [p[0]] + p[1..] by { assert x[..4][0] == p[0]; }
  }

  lemma {:induction false} PlainCharacterStays(c: char, y: string, v: string, lo: string, hi: string)
    requires Plain(v) && Plain(lo)
    requires forall p :: p in {VALUE, MIN, MAX} ==> !StartsWith([c] + y, p)
    ensures Sequential([c] + y, v, lo, hi) == [c] + Sequential(y, v, lo, hi)
  {
    var a := Replaced(y, VALUE, v);
    var b := Replaced(a, MIN, lo);
    ReplacedHead(c, y, VALUE, v);
    if StartsWith([c] + a, MIN) { NoNewPlaceholder(c, y, VALUE, v, MIN); }
    ReplacedHead(c, a, MIN, lo);
    if StartsWith([c] + b, MAX) {
      NoNewPlaceholder(c, a, MIN, lo, MAX);
      NoNewPlaceholder(c, y, VALUE, v, MAX);
    }
    ReplacedHead(c, b, MAX, hi);
  }

  // ------------------------------------------------ what a rendered text tells

  function Percents(s: string): nat {
    if s == "" then 0 else (if s[0] == '%' then 1 else 0) + Percents(s[1..])
  }

  lemma {:induction false} PercentsConcat(a: string, b: string)
    ensures Percents(a + b) == Percents(a) + Percents(b)
  {
    if a == "" {
      assert a + b == b;
    } else {
      assert (a + b)[1..] == a[1..] + b;
      PercentsConcat(a[1..], b);
    }
  }

  lemma {:induction false} PlainHasNoPercents(s: string)
    requires forall i :: 0 <= i < |s| ==> s[i] != '%'
    ensures Percents(s) == 0
  {
    if s != "" { PlainHasNoPercents(s[1..]); }
  }

  /** A placeholder counts for one percent sign, a number for none. */
  lemma PercentsOfPart(p: string, rest: string)
    ensures p in {VALUE, MIN, MAX} ==> Percents(p + rest) == 1 + Percents(rest)
    ensures Plain(p) ==> Percents(p + rest) == Percents(rest)
  {
    PercentsConcat(p, rest);
    if p in {VALUE, MIN, MAX} {
      PlainHasNoPercents(p[1..]);
    } else if Plain(p) {
      PlainHasNoPercents(p);
    }
  }

  /** Substitution removes one percent sign for each placeholder it meets. */
  lemma {:induction false} SubstLosesPercents(s: string, v: string, lo: string, hi: string)
    requires Plain(v) && Plain(lo) && Plain(hi)
    ensures Percents(Subst(s, v, lo, hi)) <= Percents(s)
    ensures HasPlaceholder(s) ==> Percents(Subst(s, v, lo, hi)) < Percents(s)
    ensures !HasPlaceholder(s) ==> Subst(s, v, lo, hi) == s
    decreases |s|
  {
    if s == "" {
    } else if exists p :: p in {VALUE, MIN, MAX} && StartsWith(s, p) {
      var p, to := if StartsWith(s, VALUE) then VALUE else if StartsWith(s, MIN) then MIN else MAX,
                   if StartsWith(s, VALUE) then v else if StartsWith(s, MIN) then lo else hi;
      var rest := s[|p|..];
      assert s == p + rest && Subst(s, v, lo, hi) == to + Subst(rest, v, lo, hi) && HasPlaceholder(s);
      hide HasPlaceholder, Subst, Percents, StartsWith, Plain;
      SubstLosesPercents(rest, v, lo, hi);
      PercentsOfPart(p, rest);
      PercentsOfPart(to, Subst(rest, v, lo, hi));
    } else {
      SubstLosesPercents(s[1..], v, lo, hi);
      PercentsConcat([s[0]], Subst(s[1..], v, lo, hi));
    }
  }

  /** Comparing the rendered text with the original detects placeholders exactly. */
  lemma UnchangedIffNoPlaceholder(s: string, v: string, lo: string, hi: string)
    requires Plain(v) && Plain(lo) && Plain(hi)
    ensures Sequential(s, v, lo, hi) == s <==> !HasPlaceholder(s)
  {
    SequentialIsSimultaneous(s, v, lo, hi);
    SubstLosesPercents(s, v, lo, hi);
  }

  /** Text without `%v` does not depend on the value; text with it grows with the
      length of the value. */
  lemma {:induction false} ValueMatters(s: string, v: string, w: string, lo: string, hi: string)
    ensures !Contains(s, VALUE) ==> Subst(s, v, lo, hi) == Subst(s, w, lo, hi)
    ensures |v| <= |w| ==> |Subst(s, v, lo, hi)| <= |Subst(s, w, lo, hi)|
    ensures Contains(s, VALUE) && |v| < |w| ==> |Subst(s, v, lo, hi)| < |Subst(s, w, lo, hi)|
    decreases |s|
  {
    if s == "" {
    } else if StartsWith(s, VALUE) {
      ValueMatters(s[2..], v, w, lo, hi);
    } else if StartsWith(s, MIN) || StartsWith(s, MAX) {
      ValueMatters(s[4..], v, w, lo, hi);
      var p := s[..4];
      assert p == MIN || p == MAX;
      assert s[1] == p[1] && s[2] == p[2] && s[3] == p[3];
      assert s[1..][1..][1..][1..] == s[4..];
      assert !StartsWith(s[1..], VALUE) && !StartsWith(s[2..], VALUE) && !StartsWith(s[3..], VALUE);
      assert s[1..][1..] == s[2..] && s[2..][1..] == s[3..] && s[3..][1..] == s[4..];
      assert Contains(s[1..], VALUE) == Contains(s[2..], VALUE) == Contains(s[3..], VALUE) == Contains(s[4..], VALUE);
    } else {
      ValueMatters(s[1..], v, w, lo, hi);
    }
  }

  // -------------------------------------------------------------- rendering

  /** The text a tag should show while its sensor holds `value`. */
  function Render(text: string, value: Long, vmin: Long, vmax: Long): string {
    Subst(text, Decimal(value), Decimal(vmin), Decimal(vmax))
  }

  /** No placeholder straddles the border in front of a percent sign. */
  lemma BorderHolds(x: string, z: string, p: string)
    requires p in {VALUE, MIN, MAX} && x != "" && z != "" && z[0] == '%'
    ensures StartsWith(x + z, p) <==> StartsWith(x, p)
  {
    if |p| <= |x| {
      assert (x + z)[..|p|] == x[..|p|];
    } else if |p| <= |x + z| {
      assert (x + z)[..|p|][|x|] == '%' != p[|x|];
    }
  }

  /** Substitution works piece by piece. */
  lemma {:induction false} SubstSplits(x: string, z: string, v: string, lo: string, hi: string)
    requires z != "" && z[0] == '%'
    ensures Subst(x + z, v, lo, hi) == Subst(x, v, lo, hi) + Subst(z, v, lo, hi)
    decreases |x|
  {
    if x == "" {
      assert x + z == z;
    } else {
      forall p | p in {VALUE, MIN, MAX} { BorderHolds(x, z, p); }
      var n := if StartsWith(x, VALUE) then 2 else if StartsWith(x, MIN) || StartsWith(x, MAX) then 4 else 1;
      assert (x + z)[n..] == x[n..] + z;
      SubstSplits(x[n..], z, v, lo, hi);
    }
  }

  lemma SubstHead(y: string, v: string, lo: string, hi: string)
    ensures Subst("%v" + y, v, lo, hi) == v + Subst(y, v, lo, hi)
    ensures Subst("%min" + y, v, lo, hi) == lo + Subst(y, v, lo, hi)
    ensures Subst("%max" + y, v, lo, hi) == hi + Subst(y, v, lo, hi)
  {
    assert ("%v" + y)[2..] == y && ("%min" + y)[4..] == y && ("%max" + y)[4..] == y;
    assert ("%v" + y)[..2] == "%v" && ("%min" + y)[..4] == "%min" && ("%max" + y)[..4] == "%max";
    assert ("%min" + y)[..2] == "%m" && ("%max" + y)[..2] == "%m";
  }

  /** Wherever a placeholder stands, it shows the number it stands for, and what is before
      and after it is rendered on its own. */
  lemma RenderAround(x: string, y: string, value: Long, vmin: Long, vmax: Long)
    ensures Render(x + ("%v" + y), value, vmin, vmax)
            == Render(x, value, vmin, vmax) + (Decimal(value) + Render(y, value, vmin, vmax))
    ensures Render(x + ("%min" + y), value, vmin, vmax)
            == Render(x, value, vmin, vmax) + (Decimal(vmin) + Render(y, value, vmin, vmax))
    ensures Render(x + ("%max" + y), value, vmin, vmax)
            == Render(x, value, vmin, vmax) + (Decimal(vmax) + Render(y, value, vmin, vmax))
  {
    var v, lo, hi := Decimal(value), Decimal(vmin), Decimal(vmax);
    SubstSplits(x, "%v" + y, v, lo, hi);
    SubstSplits(x, "%min" + y, v, lo, hi);
    SubstSplits(x, "%max" + y, v, lo, hi);
    SubstHead(y, v, lo, hi);
  }

  /** A tag text by its parts. */
  datatype Part = Literal(text: string) | ShowValue | ShowMin | ShowMax

  /** The text as it is written in the configuration. */
  function Spelled(parts: seq<Part>): string {
    if parts == [] then ""
    else
      (match parts[0]
       case Literal(text) => text
       case ShowValue => "%v"
       case ShowMin => "%min"
       case ShowMax => "%max") + Spelled(parts[1..])
  }

  /** The text as it is to be shown. */
  function Filled(parts: seq<Part>, value: Long, vmin: Long, vmax: Long): string {
    if parts == [] then ""
    else
      (match parts[0]
       case Literal(text) => text
       case ShowValue => Decimal(value)
       case ShowMin => Decimal(vmin)
       case ShowMax => Decimal(vmax)) + Filled(parts[1..], value, vmin, vmax)
  }

  ghost predicate PlainLiterals(parts: seq<Part>) {
    forall i :: 0 <= i < |parts| && parts[i].Literal? ==> '%' !in parts[i].text
  }

  lemma {:induction false} PercentFreeStays(w: string, rest: string, v: string, lo: string, hi: string)
    requires '%' !in w
    ensures Subst(w + rest, v, lo, hi) == w + Subst(rest, v, lo, hi)
  {
    if w == "" {
      assert w + rest == rest;
    } else {
      var s := w + rest;
      assert s[0] == w[0] && s[1..] == w[1..] + rest;
      forall p | p in {VALUE, MIN, MAX} ensures !StartsWith(s, p) {
        if |p| <= |s| { assert s[..|p|][0] == w[0] != '%' == p[0]; }
      }
      PercentFreeStays(w[1..], rest, v, lo, hi);
      assert [w[0]] + (w[1..] + Subst(rest, v, lo, hi)) == w + Subst(rest, v, lo, hi);
    }
  }

  /** A text spelled by parts shows each part as it should, in order. */
  lemma {:induction false} RenderSpelled(parts: seq<Part>, value: Long, vmin: Long, vmax: Long)
    requires PlainLiterals(parts)
    ensures Render(Spelled(parts), value, vmin, vmax) == Filled(parts, value, vmin, vmax)
  {
    if parts != [] {
      var v, lo, hi, rest := Decimal(value), Decimal(vmin), Decimal(vmax), Spelled(parts[1..]);
      RenderSpelled(parts[1..], value, vmin, vmax);
      SubstHead(rest, v, lo, hi);
      if parts[0].Literal? { PercentFreeStays(parts[0].text, rest, v, lo, hi); }
      hide Subst, Decimal;
    }
  }

  lemma RenderFixedIffPlain(text: string, value: Long, vmin: Long, vmax: Long)
    ensures Render(text, value, vmin, vmax) == text <==> !HasPlaceholder(text)
  {
    SubstLosesPercents(text, Decimal(value), Decimal(vmin), Decimal(vmax));
  }

  lemma RenderIgnoresValue(text: string, v: Long, w: Long, vmin: Long, vmax: Long)
    requires !Contains(text, VALUE)
    ensures Render(text, v, vmin, vmax) == Render(text, w, vmin, vmax)
  {
    ValueMatters(text, Decimal(v), Decimal(w), Decimal(vmin), Decimal(vmax));
  }

  /** For every value there is another one that any text mentioning `%v` shows differently. */
  function Contrast(v: Long): (w: Long)
    ensures |Decimal(w)| != |Decimal(v)|
  {
    assert |Decimal(0)| == 1 && Decimal(10) == Digits(1) + ['0'];
    if |Decimal(v)| == 1 then 10 else 0
  }

  lemma ContrastShows(text: string, v: Long, vmin: Long, vmax: Long)
    requires Contains(text, VALUE)
    ensures Render(text, v, vmin, vmax) != Render(text, Contrast(v), vmin, vmax)
  {
    var w := Contrast(v);
    ValueMatters(text, Decimal(v), Decimal(w), Decimal(vmin), Decimal(vmax));
    ValueMatters(text, Decimal(w), Decimal(v), Decimal(vmin), Decimal(vmax));
  }
}
