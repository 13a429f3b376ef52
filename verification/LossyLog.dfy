/** The common meaning of the three write-behind buffers: a log in which every item
    offered to a backend has exactly one fate, and a settled fate never changes. */
module LossyLogs {

  /** Pending: still buffered.  Committed: written.  Rejected: refused on arrival.
      Lost: dropped from the buffer, or handed to a database that failed. */
  datatype Fate = Pending | Committed | Rejected | Lost

  datatype Entry<+T> = Entry(item: T, fate: Fate)

  type Log<+T> = seq<Entry<T>>

  function Offered<T>(log: Log<T>): seq<T> {
    seq(|log|, i requires 0 <= i < |log| => log[i].item)
  }

  /** The items with one fate, in the order in which they were offered. */
  function Items<T>(log: Log<T>, f: Fate): seq<T> {
    if log == [] then []
    else
      var n := |log| - 1;
      var older := Items(log[..n], f);
      if log[n].fate == f then older + [log[n].item] else older
  }

  /** Where those items stand among the offered ones. */
  function Positions<T>(log: Log<T>, f: Fate): (ps: seq<nat>)
    ensures |ps| == |Items(log, f)|
    ensures forall k :: 0 <= k < |ps| ==> ps[k] < |log|
  {
    if log == [] then []
    else
      var n := |log| - 1;
      var older := Positions(log[..n], f);
      if log[n].fate == f then older + [n] else older
  }

  /** No item is committed while an older one is still pending. */
  ghost predicate InOrder<T>(log: Log<T>) {
    forall i, j :: 0 <= i < j < |log| && log[j].fate == Committed ==> log[i].fate != Pending
  }

  /** One step of a backend: items are appended, pending ones may be settled. */
  ghost predicate Evolves<T>(a: Log<T>, b: Log<T>) {
    |a| <= |b| && forall i :: 0 <= i < |a| ==> b[i].item == a[i].item && (b[i].fate == a[i].fate || a[i].fate == Pending)
  }

  /** The pending items number `lo` up to `hi` receive a fate. */
  function Settle<T>(log: Log<T>, lo: nat, hi: nat, f: Fate): (r: Log<T>)
    ensures |r| == |log|
  {
    if log == [] then []
    else
      var n := |log| - 1;
      var rank := |Items(log[..n], Pending)|;
      var e := log[n];
      Settle(log[..n], lo, hi, f) + [if e.fate == Pending && lo <= rank < hi then e.(fate := f) else e]
  }

  function Append<T>(log: Log<T>, x: T, f: Fate): Log<T> {
    log + [Entry(x, f)]
  }

  // --------------------------------------------------------- what the log says

  lemma {:induction false} ItemsAreSubsequence<T>(log: Log<T>, f: Fate)
    ensures var ps := Positions(log, f);
            && (forall k :: 0 <= k < |ps| ==> Items(log, f)[k] == log[ps[k]].item)
            && (forall k, l :: 0 <= k < l < |ps| ==> ps[k] < ps[l])
  {
    if log != [] {
      ItemsAreSubsequence(log[..|log| - 1], f);
    }
  }

  /** `xs` stands in `ys` at the increasing places `ps`. */
  ghost predicate Embeds<T>(xs: seq<T>, ys: seq<T>, ps: seq<nat>) {
    && |ps| == |xs|
    && (forall k :: 0 <= k < |ps| ==> ps[k] < |ys| && ys[ps[k]] == xs[k])
    && (forall k, l :: 0 <= k < l < |ps| ==> ps[k] < ps[l])
  }

  lemma ItemsStep<T>(log: Log<T>, f: Fate)
    requires log != []
    ensures var n := |log| - 1;
            Items(log, f) == if log[n].fate == f then Items(log[..n], f) + [log[n].item] else Items(log[..n], f)
  {
  }

  /** Conservation: the four position lists share out the offered items between them, so
      nothing is duplicated and nothing disappears. */
  lemma {:induction false} Conservation<T>(log: Log<T>, f: Fate, i: nat)
    requires i < |log|
    ensures i in Positions(log, f) <==> log[i].fate == f
  {
    var n := |log| - 1;
    forall k | 0 <= k < |Positions(log[..n], f)| ensures Positions(log[..n], f)[k] < n {}
    if i < n {
      Conservation(log[..n], f, i);
    }
  }

  lemma {:induction false} Counts<T>(log: Log<T>)
    ensures |log| == |Items(log, Pending)| + |Items(log, Committed)| + |Items(log, Rejected)| + |Items(log, Lost)|
  {
    if log != [] { Counts(log[..|log| - 1]); }
  }

  /** What is neither rejected nor lost, in order of offering. */
  function Kept<T>(log: Log<T>): seq<T> {
    if log == [] then []
    else
      var n := |log| - 1;
      var older := Kept(log[..n]);
      if log[n].fate == Pending || log[n].fate == Committed then older + [log[n].item] else older
  }

  lemma {:induction false} KeptIsCommittedThenPending<T>(log: Log<T>)
    requires InOrder(log)
    ensures Kept(log) == Items(log, Committed) + Items(log, Pending)
  {
    if log != [] {
      var n := |log| - 1;
      KeptIsCommittedThenPending(log[..n]);
      if log[n].fate == Committed {
        NothingPending(log[..n]);
      }
    }
  }

  lemma {:induction false} NothingPending<T>(log: Log<T>)
    requires forall i :: 0 <= i < |log| ==> log[i].fate != Pending
    ensures Items(log, Pending) == []
  {
    if log != [] { NothingPending(log[..|log| - 1]); }
  }

  lemma {:induction false} NoneWithFate<T>(log: Log<T>, f: Fate)
    ensures Items(log, f) == [] <==> forall i :: 0 <= i < |log| ==> log[i].fate != f
  {
    if log != [] {
      var n := |log| - 1;
      NoneWithFate(log[..n], f);
    }
  }

  /** The account of a log in which nothing was rejected: committed, pending and lost items
      are in-order subsequences of what was offered, every place belongs to exactly one of
      them, and everything pending was offered after everything committed. */
  ghost predicate Accounted<T>(offered: seq<T>, committed: seq<T>, pending: seq<T>, log: Log<T>) {
    var c, p, l := Positions(log, Committed), Positions(log, Pending), Positions(log, Lost);
    && Embeds(committed, offered, c) && Embeds(pending, offered, p) && Embeds(Items(log, Lost), offered, l)
    && |offered| == |committed| + |pending| + |Items(log, Lost)|
    && (forall i :: 0 <= i < |offered| ==> i in c || i in p || i in l)
    && (forall i :: i in c ==> i !in p && i !in l) && (forall i :: i in p ==> i !in l)
    && (forall i, j :: i in c && j in p ==> i < j)
  }

  lemma ItemsEmbed<T>(log: Log<T>, f: Fate)
    ensures Embeds(Items(log, f), Offered(log), Positions(log, f))
    ensures forall i :: i in Positions(log, f) <==> 0 <= i < |log| && log[i].fate == f
  {
    ItemsAreSubsequence(log, f);
    forall i | 0 <= i < |log| ensures i in Positions(log, f) <==> log[i].fate == f {
      Conservation(log, f, i);
    }
    hide Items, Positions;
  }

  lemma EverythingIsAccounted<T>(log: Log<T>)
    requires InOrder(log) && Items(log, Rejected) == []
    ensures Accounted(Offered(log), Items(log, Committed), Items(log, Pending), log)
  {
    hide Items, Positions, Embeds;
    Counts(log);
    NoneWithFate(log, Rejected);
    ItemsEmbed(log, Committed);
    ItemsEmbed(log, Pending);
    ItemsEmbed(log, Lost);
  }

  // ------------------------------------------------------------ the operations

  lemma ItemsOfAppend<T>(log: Log<T>, x: T, f: Fate, g: Fate)
    ensures Items(Append(log, x, f), g) == if f == g then Items(log, g) + [x] else Items(log, g)
  {
    assert Append(log, x, f)[..|log|] == log;
  }

  lemma AppendFacts<T>(log: Log<T>, x: T, f: Fate)
    requires InOrder(log) && (f == Committed ==> Items(log, Pending) == [])
    ensures InOrder(Append(log, x, f)) && Evolves(log, Append(log, x, f))
    ensures Offered(Append(log, x, f)) == Offered(log) + [x]
    ensures forall g :: Items(Append(log, x, f), g) == if f == g then Items(log, g) + [x] else Items(log, g)
  {
    NoneWithFate(log, Pending);
    forall g: Fate { ItemsOfAppend(log, x, f, g); }
  }

  lemma {:induction false} SettleEvolves<T>(log: Log<T>, lo: nat, hi: nat, f: Fate)
    ensures Evolves(log, Settle(log, lo, hi, f))
    ensures Offered(Settle(log, lo, hi, f)) == Offered(log)
  {
    if log != [] {
      var n := |log| - 1;
      SettleEvolves(log[..n], lo, hi, f);
      assert Offered(log) == Offered(log[..n]) + [log[n].item];
      var r := Settle(log, lo, hi, f);
      assert r[..n] == Settle(log[..n], lo, hi, f);
      assert Offered(r) == Offered(r[..n]) + [r[n].item];
    }
  }

  function Take<T>(s: seq<T>, n: nat): seq<T> {
    if n <= |s| then s[..n] else s
  }

  function Drop<T>(s: seq<T>, n: nat): seq<T> {
    if n <= |s| then s[n..] else []
  }

  lemma TakeDropOfAppend<T>(s: seq<T>, x: T, n: nat)
    ensures Take(s + [x], n) == if |s| < n then Take(s, n) + [x] else Take(s, n)
    ensures Drop(s + [x], n) == if |s| < n then [] else Drop(s, n) + [x]
  {
  }

  /** Settle decides about the last entry by its rank among the pending ones. */
  lemma {:induction false} SettleStep<T>(log: Log<T>, lo: nat, hi: nat, f: Fate, g: Fate)
    requires log != []
    ensures var n, r := |log| - 1, Settle(log, lo, hi, f);
            var settled := log[n].fate == Pending && lo <= |Items(log[..n], Pending)| < hi;
            && |r| == n + 1 && r[..n] == Settle(log[..n], lo, hi, f)
            && r[n] == Entry(log[n].item, if settled then f else log[n].fate)
            && Items(r, g) == if r[n].fate == g then Items(r[..n], g) + [log[n].item] else Items(r[..n], g)
  {
  }

  /** Settling removes exactly the chosen stretch from the buffer. */
  lemma {:induction false} SettlePending<T>(log: Log<T>, lo: nat, hi: nat, f: Fate)
    requires lo <= hi && f != Pending
    ensures Items(Settle(log, lo, hi, f), Pending) == Take(Items(log, Pending), lo) + Drop(Items(log, Pending), hi)
  {
    if log != [] {
      hide Settle, Items, Take, Drop;
      var n := |log| - 1;
      SettlePending(log[..n], lo, hi, f);
      SettleStep(log, lo, hi, f, Pending);
      ItemsStep(log, Pending);
      TakeDropOfAppend(Items(log[..n], Pending), log[n].item, lo);
      TakeDropOfAppend(Items(log[..n], Pending), log[n].item, hi);
      DropAll(Items(log[..n], Pending), hi);
      DropAll(Items(log[..n], Pending), lo);
      Regroup(Take(Items(log[..n], Pending), lo), Drop(Items(log[..n], Pending), hi), log[n].item);
    }
  }

  lemma DropAll<T>(s: seq<T>, n: nat)
    ensures |s| <= n ==> Drop(s, n) == [] && Take(s, n) == s
  {
  }

  lemma Regroup<T>(a: seq<T>, b: seq<T>, x: T)
    ensures (a + b) + [x] == a + (b + [x])
    ensures b == [] ==> (a + b) + [x] == (a + [x]) + b
  {
  }

  lemma {:induction false} SettleOthers<T>(log: Log<T>, lo: nat, hi: nat, f: Fate, g: Fate)
    requires g != Pending && g != f
    ensures Items(Settle(log, lo, hi, f), g) == Items(log, g)
  {
    if log != [] {
      var n := |log| - 1;
      SettleOthers(log[..n], lo, hi, f, g);
      assert Settle(log, lo, hi, f)[..n] == Settle(log[..n], lo, hi, f);
    }
  }

  /** Committing the front of the buffer appends it to what is committed. */
  lemma {:induction false} SettleFront<T>(log: Log<T>, hi: nat)
    requires InOrder(log)
    ensures Items(Settle(log, 0, hi, Committed), Committed) == Items(log, Committed) + Take(Items(log, Pending), hi)
  {
    if log != [] {
      hide Settle, Items, Take;
      var n := |log| - 1;
      var p := Items(log[..n], Pending);
      SettleFront(log[..n], hi);
      SettleStep(log, 0, hi, Committed, Committed);
      ItemsStep(log, Committed);
      ItemsStep(log, Pending);
      TakeDropOfAppend(p, log[n].item, hi);
      Regroup(Items(log[..n], Committed), Take(p, hi), log[n].item);
      if log[n].fate == Committed {
        NothingPending(log[..n]);
        DropAll(p, hi);
      }
    }
  }

  lemma {:induction false} SettleFrontInOrder<T>(log: Log<T>, hi: nat)
    requires InOrder(log)
    ensures InOrder(Settle(log, 0, hi, Committed))
  {
    if log != [] {
      var n := |log| - 1;
      var r, p := Settle(log[..n], 0, hi, Committed), Items(log[..n], Pending);
      SettleFrontInOrder(log[..n], hi);
      SettleStep(log, 0, hi, Committed, Committed);
      DropAll(p, hi);
      if log[n].fate == Committed {
        NothingPending(log[..n]);
      }
      SettlePending(log[..n], 0, hi, Committed);
      NoneWithFate(r, Pending);
      hide Settle, Items;
    }
  }

  lemma SettleKeepsOrder<T>(log: Log<T>, lo: nat, hi: nat, f: Fate)
    requires InOrder(log) && f != Committed && f != Pending
    ensures InOrder(Settle(log, lo, hi, f))
  {
    SettleEvolves(log, lo, hi, f);
    var r := Settle(log, lo, hi, f);
    forall i, j | 0 <= i < j < |r| && r[j].fate == Committed ensures r[i].fate != Pending {
      SettledFate(log, lo, hi, f, i);
      SettledFate(log, lo, hi, f, j);
    }
  }

  lemma {:induction false} SettledFate<T>(log: Log<T>, lo: nat, hi: nat, f: Fate, i: nat)
    requires i < |log|
    ensures Settle(log, lo, hi, f)[i].fate == log[i].fate
            || (log[i].fate == Pending && Settle(log, lo, hi, f)[i].fate == f)
  {
    var n := |log| - 1;
    if i < n { SettledFate(log[..n], lo, hi, f, i); }
  }

  lemma EvolvesTransitive<T>(a: Log<T>, b: Log<T>, c: Log<T>)
    requires Evolves(a, b) && Evolves(b, c)
    ensures Evolves(a, c)
  {
  }

  /** All that a backend does when it writes its whole buffer. */
  lemma CommitAll<T>(log: Log<T>, n: nat)
    requires InOrder(log) && n == |Items(log, Pending)|
    ensures var r := Settle(log, 0, n, Committed);
            && InOrder(r) && Evolves(log, r) && Offered(r) == Offered(log)
            && Items(r, Pending) == [] && Items(r, Committed) == Items(log, Committed) + Items(log, Pending)
            && Items(r, Rejected) == Items(log, Rejected) && Items(r, Lost) == Items(log, Lost)
  {
    SettleEvolves(log, 0, n, Committed);
    SettlePending(log, 0, n, Committed);
    SettleFront(log, n);
    SettleFrontInOrder(log, n);
    SettleOthers(log, 0, n, Committed, Rejected);
    SettleOthers(log, 0, n, Committed, Lost);
  }

  /** All that a backend does when it drops the stretch `lo` up to `hi` of its buffer. */
  lemma LoseStretch<T>(log: Log<T>, lo: nat, hi: nat)
    requires InOrder(log) && lo <= hi <= |Items(log, Pending)|
    ensures var r, p := Settle(log, lo, hi, Lost), Items(log, Pending);
            && InOrder(r) && Evolves(log, r) && Offered(r) == Offered(log)
            && Items(r, Pending) == p[..lo] + p[hi..] && Items(r, Committed) == Items(log, Committed)
            && Items(r, Rejected) == Items(log, Rejected)
            && |Items(r, Lost)| == |Items(log, Lost)| + (hi - lo)
  {
    SettleEvolves(log, lo, hi, Lost);
    SettlePending(log, lo, hi, Lost);
    SettleKeepsOrder(log, lo, hi, Lost);
    SettleOthers(log, lo, hi, Lost, Committed);
    SettleOthers(log, lo, hi, Lost, Rejected);
    var r := Settle(log, lo, hi, Lost);
    Counts(log);
    Counts(r);
  }
}
