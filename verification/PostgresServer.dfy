/** The PostgreSQL backend: a record buffer with partial overflow cleaning, a query queue
    that drops its oldest query, and the connection machine with its two timers.

    The database is nondeterministic: whether an insert, a bulk copy, a ping or a connect
    succeeds is a parameter of the call. */
module PostgresServer {
  import opened LossyLogs

  type Record = seq<string>

  // ---------------------------------------------------------- the query queue

  /** The newest `n` elements. */
  function Newest<T>(s: seq<T>, n: nat): seq<T> {
    if |s| <= n then s else s[|s| - n..]
  }

  /** The queries among `q` that the database accepts, call number `from` onwards. */
  function Passed(q: seq<string>, ok: nat -> bool, from: nat): seq<string> {
    if q == [] then []
    else if ok(from) then [q[0]] + Passed(q[1..], ok, from + 1)
    else Passed(q[1..], ok, from + 1)
  }

  lemma {:induction false} PassedAppend(q: seq<string>, x: string, ok: nat -> bool, from: nat)
    ensures Passed(q + [x], ok, from) ==
            if ok(from + |q|) then Passed(q, ok, from) + [x] else Passed(q, ok, from)
  {
    if q == [] {
      assert q + [x] == [x] && [x][1..] == [];
    } else {
      assert (q + [x])[1..] == q[1..] + [x];
      PassedAppend(q[1..], x, ok, from + 1);
    }
  }

  /** Which of the queries those are, counted from the front of `q`. */
  function PassedAt(q: seq<string>, ok: nat -> bool, from: nat): (ps: seq<nat>)
    ensures forall k :: 0 <= k < |ps| ==> ps[k] < |q|
  {
    if q == [] then []
    else if ok(from + |q| - 1) then PassedAt(q[..|q| - 1], ok, from) + [|q| - 1]
    else PassedAt(q[..|q| - 1], ok, from)
  }

  /** Exactly the queries whose call succeeds pass, each once and in order. */
  lemma {:induction false} PassedAreTheAccepted(q: seq<string>, ok: nat -> bool, from: nat)
    ensures Embeds(Passed(q, ok, from), q, PassedAt(q, ok, from))
    ensures forall i :: 0 <= i < |q| ==> (ok(from + i) <==> i in PassedAt(q, ok, from))
  {
    if q != [] {
      var n := |q| - 1;
      PassedAreTheAccepted(q[..n], ok, from);
      PassedAppend(q[..n], q[n], ok, from);
      assert q == q[..n] + [q[n]];
    }
  }

  /** What the queue holds after the queries `xs` were submitted during an outage. */
  function OfflineQueue(q: seq<string>, xs: seq<string>, size: nat): seq<string>
    decreases |xs|
  {
    if xs == [] then q else OfflineQueue(Newest(q + [xs[0]], size), xs[1..], size)
  }

  /** During an outage the queue is the newest part of what was pending and submitted. */
  lemma {:induction false} OutageKeepsTheNewest(q: seq<string>, xs: seq<string>, size: nat)
    requires |q| <= size
    ensures var all := q + xs;
            OfflineQueue(q, xs, size) == all[if |all| > size then |all| - size else 0..]
    ensures size > 0 && xs != [] ==>
      var r := OfflineQueue(q, xs, size); r != [] && r[|r| - 1] == xs[|xs| - 1]
    decreases |xs|
  {
    NewestIsSuffix(q + xs, size);
    OfflineQueueIsNewest(q, xs, size);
  }

  lemma NewestIsSuffix<T>(s: seq<T>, n: nat)
    ensures Newest(s, n) == s[if |s| > n then |s| - n else 0..]
    ensures n > 0 && s != [] ==> Newest(s, n) != [] && Newest(s, n)[|Newest(s, n)| - 1] == s[|s| - 1]
  {
  }

  lemma {:induction false} OfflineQueueIsNewest(q: seq<string>, xs: seq<string>, size: nat)
    requires |q| <= size
    ensures OfflineQueue(q, xs, size) == Newest(q + xs, size)
    decreases |xs|
  {
    hide Newest;
    if xs == [] {
      assert q + xs == q;
      NewestLength(q, size);
    } else {
      NewestLength(q + [xs[0]], size);
      OfflineQueueIsNewest(Newest(q + [xs[0]], size), xs[1..], size);
      NewestOfNewest(q + [xs[0]], xs[1..], size);
      assert q + xs == (q + [xs[0]]) + xs[1..];
    }
  }

  lemma NewestLength<T>(s: seq<T>, n: nat)
    ensures |Newest(s, n)| <= n
    ensures |s| <= n ==> Newest(s, n) == s
  {
  }

  lemma NewestOfNewest<T>(s: seq<T>, xs: seq<T>, n: nat)
    ensures Newest(Newest(s, n) + xs, n) == Newest(s + xs, n)
  {
  }

  // ------------------------------------------------- counting the record buffer

  /** The buffer is cleaned by a configured factor between 0 and 1. */
  type Factor = f: real | 0.0 <= f <= 1.0 witness 0.5

  /** lroundf(size * factor): rounded half away from zero. */
  function CleanCount(size: nat, f: Factor): nat {
    var x := size as real * f + 0.5;
    assert x >= 0.0;
    x.Floor
  }

  lemma CleanCountBounds(size: nat, f: Factor)
    ensures CleanCount(size, f) <= size
    ensures CleanCount(size, f) <= CleanCount(size + 1, f) <= CleanCount(size, f) + 1
    ensures size as real * f - 0.5 < CleanCount(size, f) as real <= size as real * f + 0.5
  {
    var a, b := size as real * f, (size + 1) as real * f;
    assert b == a + f;
    assert a <= size as real by { assert size as real * f <= size as real * 1.0; }
  }

  /** The record buffer as the program counts it: the real length of the vector and the
      separate counter, which overflow cleaning lets drift apart. */
  datatype Fill = Fill(len: nat, size: nat)

  function Cleaned(c: Fill, maxSize: nat, f: Factor): Fill {
    if c.size <= maxSize then c
    else
      var d := CleanCount(c.size, f);
      Fill(if d <= c.len then d else c.len, if d < c.size then c.size - d else 0)
  }

  /** One record added while nothing can be written. */
  function AddedOffline(c: Fill, maxSize: nat, f: Factor): Fill {
    Cleaned(Fill(c.len + 1, c.size + 1), maxSize, f)
  }

  /** The counts between two calls.  With at least one record surviving each cleaning the
      counter obeys its bound and the two counts differ by nothing or by one fixed number.
      A factor so small that nothing survives leaves the counter above its bound. */
  ghost predicate FillOk(c: Fill, maxSize: nat, f: Factor) {
    var n := maxSize + 1;
    var d := CleanCount(n, f);
    || (c.size <= maxSize && (c.len == c.size || (d >= 1 && c.len - c.size == 2 * d - n)))
    || (d == 0 && c.size > maxSize && CleanCount(c.size, f) == 0
        && (c.len == 0 || (c.len == 1 && CleanCount(c.size + 1, f) == 1)))
  }

  /** Cleaning never reaches outside the vector: the iterator moved by the clean count
      stays inside.  This covers the flush after an addition and the flush by timer. */
  lemma CleaningStaysInside(c: Fill, maxSize: nat, f: Factor, added: bool)
    requires FillOk(c, maxSize, f)
    ensures var c' := if added then Fill(c.len + 1, c.size + 1) else c;
            && (c'.size > maxSize ==> CleanCount(c'.size, f) <= c'.len)
            && FillOk(Cleaned(c', maxSize, f), maxSize, f) && FillOk(Fill(0, 0), maxSize, f)
  {
    CleanCountBounds(c.size, f);
    CleanCountBounds(c.size + 1, f);
    CleanCountBounds(maxSize + 1, f);
  }

  /** The counter obeys its bound and the two counts agree or differ by one fixed number, if
      cleaning a full buffer leaves at least one record. */
  lemma FillRelation(c: Fill, maxSize: nat, f: Factor)
    requires FillOk(c, maxSize, f) && CleanCount(maxSize + 1, f) >= 1
    ensures c.size <= maxSize
    ensures c.len == c.size || c.len - c.size == 2 * CleanCount(maxSize + 1, f) - (maxSize + 1)
  {
  }

  /** The vector never grows beyond the larger of its two possible fillings. */
  lemma LengthBound(c: Fill, maxSize: nat, f: Factor)
    requires FillOk(c, maxSize, f)
    ensures var d := CleanCount(maxSize + 1, f);
            c.len <= if 2 * d - 1 > maxSize then 2 * d - 1 else if maxSize > 1 then maxSize else 1
  {
  }

  function OfflineFill(k: nat, maxSize: nat, f: Factor): Fill {
    if k == 0 then Fill(0, 0) else AddedOffline(OfflineFill(k - 1, maxSize, f), maxSize, f)
  }

  /** The counter keeps its bound through every outage exactly if cleaning a full buffer
      leaves at least one record. */
  lemma BoundHoldsIffSomethingSurvives(maxSize: nat, f: Factor)
    ensures (forall k: nat :: OfflineFill(k, maxSize, f).size <= maxSize) <==> CleanCount(maxSize + 1, f) >= 1
  {
    if CleanCount(maxSize + 1, f) >= 1 {
      forall k: nat ensures OfflineFill(k, maxSize, f).size <= maxSize { OfflineFillOk(k, maxSize, f); }
    } else {
      BeforeOverflow(maxSize, maxSize, f);
      assert OfflineFill(maxSize + 1, maxSize, f).size == maxSize + 1;
    }
  }

  lemma {:induction false} OfflineFillOk(k: nat, maxSize: nat, f: Factor)
    ensures FillOk(OfflineFill(k, maxSize, f), maxSize, f)
  {
    if k > 0 {
      OfflineFillOk(k - 1, maxSize, f);
      CleaningStaysInside(OfflineFill(k - 1, maxSize, f), maxSize, f, true);
    }
  }

  lemma {:induction false} BeforeOverflow(k: nat, maxSize: nat, f: Factor)
    requires k <= maxSize
    ensures OfflineFill(k, maxSize, f) == Fill(k, k)
  {
    if k > 0 { BeforeOverflow(k - 1, maxSize, f); }
  }

  // ------------------------------------------------------- the connection machine

  /** The connection flag and the two timers, armed or not. */
  datatype Link = Link(connectOk: bool, pingTimer: bool, reconnectTimer: bool)

  /** The periods of the timers; a timer with a period of zero is never armed. */
  datatype Periods = Periods(ping: int, reconnect: int)

  /** What a timer message finds out about the database. */
  datatype Tick = PingTick(pingOk: bool) | ReconnectTick(isConnection: bool, pingOk: bool, reconnected: bool)

  /** Connected means: pinging and not trying to reconnect. */
  predicate LinkCoupled(l: Link, p: Periods) {
    l.pingTimer == (l.connectOk && p.ping > 0) && l.reconnectTimer == (!l.connectOk && p.reconnect > 0)
  }

  function LinkInit(l: Link, p: Periods, reconnected: bool): Link {
    if l.connectOk then l
    else if reconnected then Link(true, p.ping > 0, false)
    else Link(false, l.pingTimer, p.reconnect > 0)
  }

  function LinkAfter(l: Link, p: Periods, tick: Tick): Link {
    match tick
    case PingTick(pingOk) =>
      if pingOk then l.(connectOk := true) else Link(false, false, p.reconnect > 0)
    case ReconnectTick(isConnection, pingOk, reconnected) =>
      if !isConnection then LinkInit(l, p, reconnected)
      else if pingOk then Link(true, p.ping > 0, false)
      else l.(connectOk := false)
  }

  function LinkRun(l: Link, p: Periods, ticks: seq<Tick>): Link {
    if ticks == [] then l else LinkAfter(LinkRun(l, p, ticks[..|ticks| - 1]), p, ticks[|ticks| - 1])
  }

  /** Tick number `i` comes from a timer that is armed when it is delivered. */
  predicate FromArmedTimer(l: Link, p: Periods, ticks: seq<Tick>, i: nat)
    requires i < |ticks|
  {
    var before := LinkRun(l, p, ticks[..i]);
    if ticks[i].PingTick? then before.pingTimer else before.reconnectTimer
  }

  /** From start-up on, as long as only armed timers deliver, connected means pinging and
      not trying to reconnect, through every loss and recovery. */
  lemma {:induction false} ArmedTicksKeepCoupling(p: Periods, connected: bool, ticks: seq<Tick>)
    requires var l := LinkInit(Link(false, false, false), p, connected);
             forall i :: 0 <= i < |ticks| ==> FromArmedTimer(l, p, ticks, i)
    ensures var l := LinkRun(LinkInit(Link(false, false, false), p, connected), p, ticks);
            && LinkCoupled(l, p)
            && (p.ping > 0 ==> (l.connectOk <==> l.pingTimer))
            && (p.reconnect > 0 ==> (l.connectOk <==> !l.reconnectTimer))
  {
    var l := LinkInit(Link(false, false, false), p, connected);
    if ticks != [] {
      var n := |ticks| - 1;
      forall i | 0 <= i < n ensures FromArmedTimer(l, p, ticks[..n], i) {
        assert FromArmedTimer(l, p, ticks, i) && ticks[..n][..i] == ticks[..i];
      }
      ArmedTicksKeepCoupling(p, connected, ticks[..n]);
      assert FromArmedTimer(l, p, ticks, n);
    }
  }

  /** A ping message left over from a disarmed timer does break it: after a failed ping the
      next message, already queued, finds the database back. */
  lemma LeftOverTickBreaksCoupling(p: Periods)
    ensures var l := LinkInit(Link(false, false, false), p, true);
            var ticks := [PingTick(false), PingTick(true)];
            && (p.ping > 0 ==> FromArmedTimer(l, p, ticks, 0) && !FromArmedTimer(l, p, ticks, 1))
            && (LinkCoupled(LinkRun(l, p, ticks), p) <==> p.ping <= 0 && p.reconnect <= 0)
  {
    var l := LinkInit(Link(false, false, false), p, true);
    var ticks := [PingTick(false), PingTick(true)];
    assert ticks[..0] == [] && ticks[..1] == [PingTick(false)] && [PingTick(false)][..0] == [];
    assert LinkRun(l, p, ticks[..1]) == Link(false, false, p.reconnect > 0);
  }

  // ------------------------------------------------------------------ the server

  class DBServer {
    const qbufSize: nat
    const ibufMaxSize: nat
    const cleanFactor: Factor
    const lastRemove: bool
    const pingTime: int
    const reconnectTime: int

    var connectOk: bool
    var qbuf: seq<string>
    var ibuf: seq<Record>
    var ibufSize: nat
    var pingTimer: bool        // armed
    var reconnectTimer: bool   // armed

    ghost var history: seq<Record>    // rows the database has taken by bulk copy
    ghost var executed: seq<string>   // queries the database has executed
    ghost var records: Log<Record>
    ghost var queries: Log<string>

    ghost predicate Valid()
      reads this
    {
      && InOrder(records) && ibuf == Items(records, Pending) && history == Items(records, Committed)
      && InOrder(queries) && qbuf == Items(queries, Pending) && executed == Items(queries, Committed)
      && Items(records, Rejected) == [] && Items(queries, Rejected) == []
      && |qbuf| <= qbufSize
      && FillOk(Fill(|ibuf|, ibufSize), ibufMaxSize, cleanFactor)
    }

    function LinkNow(): Link
      reads this`connectOk, this`pingTimer, this`reconnectTimer
    {
      Link(connectOk, pingTimer, reconnectTimer)
    }

    predicate Coupled()
      reads this`connectOk, this`pingTimer, this`reconnectTimer
    {
      LinkCoupled(LinkNow(), Periods(pingTime, reconnectTime))
    }

    constructor (qbufSize: nat, ibufMaxSize: nat, cleanFactor: Factor, lastRemove: bool,
                 pingTime: int, reconnectTime: int)
      ensures Valid() && qbuf == [] && ibuf == [] && ibufSize == 0 && !connectOk && !pingTimer && !reconnectTimer
      ensures records == [] && queries == []
    {
      this.qbufSize, this.ibufMaxSize, this.cleanFactor, this.lastRemove :=
        qbufSize, ibufMaxSize, cleanFactor, lastRemove;
      this.pingTime, this.reconnectTime := pingTime, reconnectTime;
      connectOk, qbuf, ibuf, ibufSize, pingTimer, reconnectTimer := false, [], [], 0, false, false;
      history, executed, records, queries := [], [], [], [];
    }

    /** In every state between two calls all records and queries ever submitted are accounted for:
        written, buffered or lost, each once and in the order of submission. */
    lemma NothingUnaccounted()
      requires Valid()
      ensures Accounted(Offered(records), history, ibuf, records)
      ensures Accounted(Offered(queries), executed, qbuf, queries)
    {
      EverythingIsAccounted(records);
      EverythingIsAccounted(queries);
    }

    /** What overflow cleaning keeps of a buffer counted as `size`: the clean count of
        records, the newest ones if `lastRemove` is set and the oldest ones otherwise. */
    function Survivors(buf: seq<Record>, size: nat): seq<Record> {
      if size <= ibufMaxSize then buf
      else
        var d := CleanCount(size, cleanFactor);
        if |buf| <= d then buf else if lastRemove then buf[|buf| - d..] else buf[..d]
    }

    ghost predicate RecordsOk()
      reads this`records, this`ibuf, this`history
    {
      && InOrder(records) && ibuf == Items(records, Pending) && history == Items(records, Committed)
      && Items(records, Rejected) == []
    }

    /** The overflow branch of flushInsertBuffer. */
    method CleanOverflow()
      requires RecordsOk()
      requires ibufSize > ibufMaxSize ==> CleanCount(ibufSize, cleanFactor) <= |ibuf|
      modifies this`ibuf, this`ibufSize, this`records
      ensures RecordsOk() && Evolves(old(records), records) && Offered(records) == Offered(old(records))
      ensures ibuf == Survivors(old(ibuf), old(ibufSize))
      ensures old(ibufSize) <= ibufMaxSize ==> ibuf == old(ibuf) && ibufSize == old(ibufSize)
      ensures old(ibufSize) > ibufMaxSize ==>
        var d := CleanCount(old(ibufSize), cleanFactor);
        && ibuf == (if lastRemove then old(ibuf)[|old(ibuf)| - d..] else old(ibuf)[..d])
        && ibufSize == (if d < old(ibufSize) then old(ibufSize) - d else 0)
      ensures |Items(records, Lost)| == |Items(old(records), Lost)| + (|old(ibuf)| - |ibuf|)
      ensures Fill(|ibuf|, ibufSize) == Cleaned(Fill(|old(ibuf)|, old(ibufSize)), ibufMaxSize, cleanFactor)
    {
      hide CleanCount, Items, Settle, InOrder;
      if ibufSize > ibufMaxSize {
        var delnum := CleanCount(ibufSize, cleanFactor);
        var beg, end := 0, |ibuf|;
        if lastRemove {
          end := end - delnum;
        } else {
          beg := beg + delnum;
        }
        if beg != |ibuf| {
          LoseStretch(records, beg, end);
          ibuf := ibuf[..beg] + ibuf[end..];
          records := Settle(records, beg, end, Lost);
        }
        ibufSize := if delnum < ibufSize then ibufSize - delnum else 0;
      }
    }

    /** flushInsertBuffer: clean an overfull buffer, then try to write what is left.  The
        precondition covers both callers, the timer and the addition of a record. */
    method FlushInsertBuffer(copyOk: bool)
      requires RecordsOk()
      requires ibufSize > ibufMaxSize ==> CleanCount(ibufSize, cleanFactor) <= |ibuf|
      modifies this`ibuf, this`ibufSize, this`history, this`records
      ensures RecordsOk() && Evolves(old(records), records) && Offered(records) == Offered(old(records))
      ensures var kept := Survivors(old(ibuf), old(ibufSize));
              var c := Cleaned(Fill(|old(ibuf)|, old(ibufSize)), ibufMaxSize, cleanFactor);
              var written := c.size != 0 && connectOk && copyOk;
              && ibuf == (if written then [] else kept)
              && history == (if written then old(history) + kept else old(history))
              && Fill(|ibuf|, ibufSize) == (if written then Fill(0, 0) else c)
              && |Items(records, Lost)| == |Items(old(records), Lost)| + (|old(ibuf)| - |kept|)
    {
      hide CleanCount, Items, InOrder;
      CleanOverflow();
      if ibufSize == 0 || !connectOk {
        return;
      }
      if copyOk {
        CommitAll(records, |ibuf|);
        EvolvesTransitive(old(records), records, Settle(records, 0, |ibuf|, Committed));
        history := history + ibuf;
        records := Settle(records, 0, |ibuf|, Committed);
        ibuf := [];
        ibufSize := 0;
      }
    }

    /** The flush timer. */
    method FlushTimer(copyOk: bool)
      requires Valid()
      modifies this`ibuf, this`ibufSize, this`history, this`records
      ensures Valid() && Evolves(old(records), records) && Offered(records) == Offered(old(records))
      ensures 0 < old(ibufSize) <= ibufMaxSize && connectOk && copyOk ==>
        ibuf == [] && ibufSize == 0 && history == old(history) + old(ibuf)
      ensures !connectOk || !copyOk ==> history == old(history)
      ensures var kept := Survivors(old(ibuf), old(ibufSize));
              var c := Cleaned(Fill(|old(ibuf)|, old(ibufSize)), ibufMaxSize, cleanFactor);
              var written := c.size != 0 && connectOk && copyOk;
              && ibuf == (if written then [] else kept)
              && history == (if written then old(history) + kept else old(history))
              && Fill(|ibuf|, ibufSize) == (if written then Fill(0, 0) else c)
    {
      CleaningStaysInside(Fill(|ibuf|, ibufSize), ibufMaxSize, cleanFactor, false);
      FlushInsertBuffer(copyOk);
    }

    /** addRecord, called for every sensor message. */
    method AddRecord(rec: Record, copyOk: bool)
      requires Valid()
      modifies this`ibuf, this`ibufSize, this`history, this`records
      ensures Valid() && Evolves(old(records), records)
      ensures Offered(records) == Offered(old(records)) + [rec]
      ensures old(ibufSize) + 1 < ibufMaxSize ==>
        ibuf == old(ibuf) + [rec] && ibufSize == old(ibufSize) + 1 && history == old(history)
      ensures old(ibufSize) + 1 == ibufMaxSize && connectOk && copyOk ==>
        ibuf == [] && ibufSize == 0 && history == old(history) + (old(ibuf) + [rec])
      ensures var kept := Survivors(old(ibuf) + [rec], old(ibufSize) + 1);
              var c := AddedOffline(Fill(|old(ibuf)|, old(ibufSize)), ibufMaxSize, cleanFactor);
              var written := old(ibufSize) + 1 >= ibufMaxSize && c.size != 0 && connectOk && copyOk;
              && ibuf == (if written then [] else kept)
              && history == (if written then old(history) + kept else old(history))
              && Fill(|ibuf|, ibufSize) == (if written then Fill(0, 0) else c)
    {
      hide CleanCount, Items, Evolves, InOrder, FillOk;
      CleaningStaysInside(Fill(|ibuf|, ibufSize), ibufMaxSize, cleanFactor, true);
      AppendFacts(records, rec, Pending);
      ghost var longer := Append(records, rec, Pending);
      ibuf := ibuf + [rec];
      records := longer;
      ibufSize := ibufSize + 1;
      if ibufSize >= ibufMaxSize {
        FlushInsertBuffer(copyOk);
        EvolvesTransitive(old(records), longer, records);
      }
    }

    // ------------------------------------------------------------ query side

    /** The front query leaves the queue, executed or lost. */
    ghost method PopQuery(ok: bool)
      requires InOrder(queries) && qbuf == Items(queries, Pending) && executed == Items(queries, Committed)
      requires qbuf != [] && Items(queries, Rejected) == []
      modifies this`queries
      ensures InOrder(queries) && qbuf[1..] == Items(queries, Pending) && Items(queries, Rejected) == []
      ensures Items(queries, Committed) == if ok then executed + [qbuf[0]] else executed
      ensures Evolves(old(queries), queries) && Offered(queries) == Offered(old(queries))
    {
      SettleEvolves(queries, 0, 1, if ok then Committed else Lost);
      SettlePending(queries, 0, 1, if ok then Committed else Lost);
      SettleOthers(queries, 0, 1, if ok then Committed else Lost, Rejected);
      if ok {
        SettleFront(queries, 1);
        SettleFrontInOrder(queries, 1);
        assert Take(qbuf, 1) == [qbuf[0]];
      } else {
        SettleKeepsOrder(queries, 0, 1, Lost);
        SettleOthers(queries, 0, 1, Lost, Committed);
      }
      assert Take(qbuf, 0) + Drop(qbuf, 1) == qbuf[1..];
      queries := Settle(queries, 0, 1, if ok then Committed else Lost);
    }

    /** flushBuffer: everything queued is tried once, in order, and leaves the queue. */
    method FlushBuffer(ok: nat -> bool)
      requires Valid()
      modifies this`qbuf, this`executed, this`queries
      ensures Valid() && qbuf == []
      ensures executed == old(executed) + Passed(old(qbuf), ok, 0)
      ensures Evolves(old(queries), queries) && Offered(queries) == Offered(old(queries))
    {
      var call: nat := 0;
      ghost var q := qbuf;
      assert q[..0] == [] && q[0..] == q;
      while qbuf != []
        invariant Valid() && call <= |q| && qbuf == q[call..]
        invariant executed == old(executed) + Passed(q[..call], ok, 0)
        invariant Evolves(old(queries), queries) && Offered(queries) == Offered(old(queries))
        decreases |qbuf|
      {
        ghost var before := queries;
        var front := qbuf[0];
        var done := ok(call);
        PopQuery(done);
        EvolvesTransitive(old(queries), before, queries);
        PassedAppend(q[..call], front, ok, 0);
        assert q[..call + 1] == q[..call] + [front];
        if done {
          executed := executed + [front];
        }
        qbuf := qbuf[1..];
        call := call + 1;
      }
      assert q[..call] == q;
    }

    /** writeToBase: without a connection the query is queued, dropping the oldest one if
        the queue is full; with one, the queue is drained before the query is tried. */
    method WriteToBase(query: string, ok: nat -> bool) returns (done: bool)
      requires Valid()
      modifies this`qbuf, this`executed, this`queries
      ensures Valid() && Evolves(old(queries), queries) && Offered(queries) == Offered(old(queries)) + [query]
      ensures !connectOk ==> !done && executed == old(executed)
      ensures !connectOk ==>
        qbuf == if |old(qbuf)| < qbufSize then old(qbuf) + [query] else (old(qbuf) + [query])[|old(qbuf)| + 1 - qbufSize..]
      ensures !connectOk && qbufSize > 0 ==> qbuf != [] && qbuf[|qbuf| - 1] == query
      ensures connectOk ==> qbuf == [] && done == ok(|old(qbuf)|)
      ensures connectOk ==> executed == old(executed) + Passed(old(qbuf) + [query], ok, 0)
    {
      hide FillOk, Items, InOrder, Offered, Evolves, Passed;
      if !connectOk {
        AppendFacts(queries, query, Pending);
        ghost var longer := Append(queries, query, Pending);
        queries := longer;
        qbuf := qbuf + [query];
        if |qbuf| > qbufSize {
          PopQuery(false);
          EvolvesTransitive(old(queries), longer, queries);
          qbuf := qbuf[1..];
        }
        return false;
      }
      var tried := |qbuf|;
      FlushBuffer(ok);
      ghost var drained := queries;
      done := ok(tried);
      AppendFacts(queries, query, if done then Committed else Lost);
      PassedAppend(old(qbuf), query, ok, 0);
      queries := Append(queries, query, if done then Committed else Lost);
      EvolvesTransitive(old(queries), drained, queries);
      if done {
        executed := executed + [query];
      }
    }

    /** confirmInfo: the record buffer is flushed before the update is written. */
    method ConfirmInfo(query: string, copyOk: bool, ok: nat -> bool)
      requires Valid()
      modifies this`ibuf, this`ibufSize, this`history, this`records, this`qbuf, this`executed, this`queries
      ensures Valid() && Evolves(old(queries), queries) && Evolves(old(records), records)
      ensures Offered(queries) == Offered(old(queries)) + [query] && Offered(records) == Offered(old(records))
      ensures var kept := Survivors(old(ibuf), old(ibufSize));
              var c := Cleaned(Fill(|old(ibuf)|, old(ibufSize)), ibufMaxSize, cleanFactor);
              var written := c.size != 0 && connectOk && copyOk;
              && ibuf == (if written then [] else kept)
              && history == (if written then old(history) + kept else old(history))
              && Fill(|ibuf|, ibufSize) == (if written then Fill(0, 0) else c)
      ensures !connectOk ==> executed == old(executed)
      ensures !connectOk ==>
        qbuf == if |old(qbuf)| < qbufSize then old(qbuf) + [query] else (old(qbuf) + [query])[|old(qbuf)| + 1 - qbufSize..]
      ensures connectOk ==> qbuf == [] && executed == old(executed) + Passed(old(qbuf) + [query], ok, 0)
    {
      CleaningStaysInside(Fill(|ibuf|, ibufSize), ibufMaxSize, cleanFactor, false);
      FlushInsertBuffer(copyOk);
      var _ := WriteToBase(query, ok);
    }

    // ------------------------------------------------------ connection machine

    method AskPing(time: int)
      modifies this`pingTimer
      ensures pingTimer == (time > 0)
    {
      pingTimer := time > 0;
    }

    method AskReconnect(time: int)
      modifies this`reconnectTimer
      ensures reconnectTimer == (time > 0)
    {
      reconnectTimer := time > 0;
    }

    /** initDBServer, first called at start-up and again by the reconnect timer. */
    method InitDBServer(reconnected: bool, ok: nat -> bool)
      requires Valid()
      modifies this`connectOk, this`pingTimer, this`reconnectTimer, this`qbuf, this`executed, this`queries
      ensures Valid() && connectOk == (old(connectOk) || reconnected)
      ensures old(Coupled()) || (!old(connectOk) && !old(pingTimer)) ==> Coupled()
      ensures Evolves(old(queries), queries) && Offered(queries) == Offered(old(queries))
      ensures !old(connectOk) && reconnected ==> qbuf == [] && executed == old(executed) + Passed(old(qbuf), ok, 0)
      ensures old(connectOk) || !reconnected ==> qbuf == old(qbuf) && executed == old(executed)
      ensures LinkNow() == LinkInit(old(LinkNow()), Periods(pingTime, reconnectTime), reconnected)
      ensures pingTimer == if old(connectOk) || !reconnected then old(pingTimer) else pingTime > 0
      ensures reconnectTimer == if old(connectOk) then old(reconnectTimer) else !reconnected && reconnectTime > 0
    {
      if connectOk {
        return;
      }
      if !reconnected {
        AskReconnect(reconnectTime);
      } else {
        connectOk := true;
        AskReconnect(0);
        AskPing(pingTime);
        FlushBuffer(ok);
      }
    }

    /** The ping timer.  A message left over from a timer that was already disarmed breaks
        the coupling exactly if the ping succeeds (and some timer is in use at all). */
    method PingTimer(pingOk: bool)
      requires Valid()
      modifies this`connectOk, this`pingTimer, this`reconnectTimer
      ensures Valid() && connectOk == pingOk
      ensures old(Coupled()) ==>
        (Coupled() <==> old(connectOk) || !pingOk || (pingTime <= 0 && reconnectTime <= 0))
      ensures old(Coupled()) && old(pingTimer) ==> Coupled()
      ensures LinkNow() == LinkAfter(old(LinkNow()), Periods(pingTime, reconnectTime), PingTick(pingOk))
      ensures pingTimer == (pingOk && old(pingTimer))
      ensures reconnectTimer == if pingOk then old(reconnectTimer) else reconnectTime > 0
    {
      if !pingOk {
        connectOk := false;
        AskPing(0);
        AskReconnect(reconnectTime);
      } else {
        connectOk := true;
      }
    }

    /** The reconnect timer.  Here a left-over message breaks the coupling exactly if the
        connection object still exists and its ping fails. */
    method ReconnectTimer(isConnection: bool, pingOk: bool, reconnected: bool, ok: nat -> bool)
      requires Valid()
      modifies this`connectOk, this`pingTimer, this`reconnectTimer, this`qbuf, this`executed, this`queries
      ensures Valid()
      ensures connectOk == if isConnection then pingOk else old(connectOk) || reconnected
      ensures old(Coupled()) ==>
        (Coupled() <==> !old(connectOk) || !isConnection || pingOk || (pingTime <= 0 && reconnectTime <= 0))
      ensures old(Coupled()) && old(reconnectTimer) ==> Coupled()
      ensures Evolves(old(queries), queries) && Offered(queries) == Offered(old(queries))
      ensures var drained := !isConnection && !old(connectOk) && reconnected;
              && qbuf == (if drained then [] else old(qbuf))
              && executed == (if drained then old(executed) + Passed(old(qbuf), ok, 0) else old(executed))
      ensures LinkNow() == LinkAfter(old(LinkNow()), Periods(pingTime, reconnectTime),
                                     ReconnectTick(isConnection, pingOk, reconnected))
      ensures isConnection ==>
        && pingTimer == (if pingOk then pingTime > 0 else old(pingTimer))
        && reconnectTimer == (!pingOk && old(reconnectTimer))
    {
      if isConnection {
        if pingOk {
          connectOk := true;
          AskReconnect(0);
          AskPing(pingTime);
        } else {
          connectOk := false;
        }
      } else {
        InitDBServer(reconnected, ok);
      }
    }
  }
}
