/** Logs of a backend that settles its buffer as a whole: a succession of blocks, each
    written or lost in one piece, followed by the buffer. */
module WholeBlocks {
  import opened LossyLogs

  /** A block of items with one fate. */
  datatype Segment<+T> = Segment(items: seq<T>, fate: Fate)

  function Marked<T>(xs: seq<T>, f: Fate): (log: Log<T>)
    ensures |log| == |xs|
  {
    seq(|xs|, i requires 0 <= i < |xs| => Entry(xs[i], f))
  }

  function LogOf<T>(segs: seq<Segment<T>>): Log<T> {
    if segs == [] then []
    else
      var n := |segs| - 1;
      LogOf(segs[..n]) + Marked(segs[n].items, segs[n].fate)
  }

  /** All items of the blocks, in order. */
  function Joined<T>(segs: seq<Segment<T>>): seq<T> {
    if segs == [] then [] else Joined(segs[..|segs| - 1]) + segs[|segs| - 1].items
  }

  /** The blocks with one fate. */
  function WithFate<T>(segs: seq<Segment<T>>, f: Fate): seq<Segment<T>> {
    if segs == [] then []
    else
      var n := |segs| - 1;
      if segs[n].fate == f then WithFate(segs[..n], f) + [segs[n]] else WithFate(segs[..n], f)
  }

  /** The log is a succession of settled blocks, the lost ones of one fixed length, and what
      is buffered comes after all of them. */
  ghost predicate Segmented<T>(log: Log<T>, segs: seq<Segment<T>>, buf: seq<T>, block: nat) {
    && log == LogOf(segs) + Marked(buf, Pending)
    && forall i :: 0 <= i < |segs| ==>
         segs[i].items != [] && (segs[i].fate == Committed || (segs[i].fate == Lost && |segs[i].items| == block))
  }

  lemma {:induction false} ItemsOfMarked<T>(a: Log<T>, xs: seq<T>, f: Fate, g: Fate)
    ensures Items(a + Marked(xs, f), g) == if f == g then Items(a, g) + xs else Items(a, g)
  {
    if xs == [] {
      assert a + Marked(xs, f) == a;
    } else {
      var n := |xs| - 1;
      ItemsOfMarked(a, xs[..n], f, g);
      assert (a + Marked(xs, f))[..|a| + n] == a + Marked(xs[..n], f);
      assert xs[..n] + [xs[n]] == xs;
    }
  }

  lemma {:induction false} ItemsOfSegments<T>(segs: seq<Segment<T>>, f: Fate)
    ensures Items(LogOf(segs), f) == Joined(WithFate(segs, f))
  {
    if segs != [] {
      var n := |segs| - 1;
      ItemsOfSegments(segs[..n], f);
      ItemsOfMarked(LogOf(segs[..n]), segs[n].items, segs[n].fate, f);
      var rest := WithFate(segs[..n], f);
      assert (rest + [segs[n]])[..|rest|] == rest;
    }
  }

  lemma {:induction false} OfferedOfSegments<T>(segs: seq<Segment<T>>)
    ensures Offered(LogOf(segs)) == Joined(segs)
  {
    if segs != [] {
      var n := |segs| - 1;
      OfferedOfSegments(segs[..n]);
      assert Offered(LogOf(segs)) == Offered(LogOf(segs[..n])) + segs[n].items;
    }
  }

  lemma {:induction false} SettleNothing<T>(a: Log<T>, hi: nat, f: Fate)
    requires Items(a, Pending) == []
    ensures Settle(a, 0, hi, f) == a
  {
    if a != [] {
      var n := |a| - 1;
      ItemsStep(a, Pending);
      SettleNothing(a[..n], hi, f);
    }
  }

  lemma MarkedLast<T>(a: Log<T>, xs: seq<T>, f: Fate)
    requires xs != []
    ensures var n := |xs| - 1; a + Marked(xs, f) == (a + Marked(xs[..n], f)) + [Entry(xs[n], f)]
  {
  }

  lemma LastAndRest<T>(log: seq<T>, rest: seq<T>, x: T)
    requires log == rest + [x]
    ensures log != [] && log[..|log| - 1] == rest && log[|log| - 1] == x
  {
  }

  /** Settling a whole buffer turns it into one block. */
  lemma {:induction false} SettleMarked<T>(a: Log<T>, xs: seq<T>, hi: nat, f: Fate)
    requires Items(a, Pending) == [] && |xs| <= hi
    ensures Settle(a + Marked(xs, Pending), 0, hi, f) == a + Marked(xs, f)
  {
    hide Settle, Items;
    if xs == [] {
      assert a + Marked(xs, Pending) == a && a + Marked(xs, f) == a;
      SettleNothing(a, hi, f);
    } else {
      hide Marked;
      var n := |xs| - 1;
      var log := a + Marked(xs, Pending);
      SettleMarked(a, xs[..n], hi, f);
      MarkedLast(a, xs, Pending);
      LastAndRest(log, a + Marked(xs[..n], Pending), Entry(xs[n], Pending));
      ItemsOfMarked(a, xs[..n], Pending, Pending);
      assert [] + xs[..n] == xs[..n];
      SettleStep(log, 0, hi, f, Pending);
      SplitLast(Settle(log, 0, hi, f));
      MarkedLast(a, xs, f);
    }
  }

  lemma SplitLast<T>(s: seq<T>)
    requires s != []
    ensures s == s[..|s| - 1] + [s[|s| - 1]]
  {
  }

  lemma {:induction false} NothingPendingInSegments<T>(segs: seq<Segment<T>>)
    requires forall i :: 0 <= i < |segs| ==> segs[i].fate != Pending
    ensures Items(LogOf(segs), Pending) == []
  {
    if segs != [] {
      var n := |segs| - 1;
      NothingPendingInSegments(segs[..n]);
      ItemsOfMarked(LogOf(segs[..n]), segs[n].items, segs[n].fate, Pending);
    }
  }

  lemma SegmentedAppend<T>(log: Log<T>, segs: seq<Segment<T>>, buf: seq<T>, block: nat, x: T)
    requires Segmented(log, segs, buf, block)
    ensures Segmented(Append(log, x, Pending), segs, buf + [x], block)
  {
    assert Marked(buf + [x], Pending) == Marked(buf, Pending) + [Entry(x, Pending)];
  }

  lemma SegmentedSettle<T>(log: Log<T>, segs: seq<Segment<T>>, buf: seq<T>, block: nat, f: Fate)
    requires Segmented(log, segs, buf, block) && buf != [] && (f == Committed || (f == Lost && |buf| == block))
    ensures Items(log, Pending) == buf
    ensures Segmented(Settle(log, 0, |buf|, f), segs + [Segment(buf, f)], [], block)
  {
    hide Settle, Items;
    NothingPendingInSegments(segs);
    ItemsOfMarked(LogOf(segs), buf, Pending, Pending);
    assert [] + buf == buf;
    SettleMarked(LogOf(segs), buf, |buf|, f);
    var segs' := segs + [Segment(buf, f)];
    assert segs'[..|segs|] == segs;
    assert LogOf(segs') + Marked([], Pending) == LogOf(segs');
  }

  /** What such a log tells: the offered items split in order into blocks that are committed
      or lost as a whole and the buffer, and every loss is of the fixed length. */
  lemma SegmentsTell<T>(log: Log<T>, segs: seq<Segment<T>>, buf: seq<T>, block: nat)
    requires Segmented(log, segs, buf, block)
    ensures Offered(log) == Joined(segs) + buf
    ensures Items(log, Committed) == Joined(WithFate(segs, Committed))
    ensures Items(log, Lost) == Joined(WithFate(segs, Lost))
    ensures |Items(log, Lost)| == |WithFate(segs, Lost)| * block
  {
    OfferedOfSegments(segs);
    assert Offered(log) == Offered(LogOf(segs)) + buf;
    hide LogOf, Items, Joined, WithFate, Offered, Marked;
    ItemsOfSegments(segs, Committed);
    ItemsOfSegments(segs, Lost);
    ItemsOfMarked(LogOf(segs), buf, Pending, Committed);
    ItemsOfMarked(LogOf(segs), buf, Pending, Lost);
    BlocksAddUp(segs, block);
  }

  lemma {:induction false} BlocksAddUp<T>(segs: seq<Segment<T>>, block: nat)
    requires forall i :: 0 <= i < |segs| && segs[i].fate == Lost ==> |segs[i].items| == block
    ensures |Joined(WithFate(segs, Lost))| == |WithFate(segs, Lost)| * block
  {
    if segs != [] {
      var n := |segs| - 1;
      BlocksAddUp(segs[..n], block);
      JoinedLast(WithFate(segs[..n], Lost), segs[n]);
      OneBlockMore(|WithFate(segs[..n], Lost)|, block);
      hide Joined;
    }
  }

  lemma JoinedLast<T>(segs: seq<Segment<T>>, s: Segment<T>)
    ensures Joined(segs + [s]) == Joined(segs) + s.items
  {
    assert (segs + [s])[..|segs|] == segs;
  }

  lemma OneBlockMore(n: nat, block: nat)
    ensures (n + 1) * block == n * block + block
  {
  }
}
