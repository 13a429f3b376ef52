/** The OpenTSDB backend: lines are buffered and sent as one block; a full buffer refuses
    new lines. */
module OpenTSDBBackend {
  import opened LossyLogs

  /** What the socket does with a block: takes it, fails with EPIPE or EBADF, fails with
      another error number, or throws a network or any other exception. */
  datatype Send = Sent | Broken | Failed | IoException | OtherException

  /** The surroundings of one flush: the socket's own report, the outcome of the send and
      of a reconnect, should one be tried. */
  datatype Net = Net(isConnected: bool, send: Send, reconnected: bool)

  // ------------------------------------------------------------ the policy as a function

  /** The buffer, the lines taken by the socket so far, the number of blocks lost to a
      failing send, and whether a socket object exists. */
  datatype Stock = Stock(buf: seq<string>, sent: seq<string>, failures: nat, tcp: bool)

  /** One attempt to send everything. */
  function Flushed(s: Stock, net: Net): Stock {
    if s.buf == [] || !s.tcp || !net.isConnected then s
    else
      match net.send
      case Sent => s.(buf := [], sent := s.sent + s.buf)
      case Failed => s.(buf := [], failures := s.failures + 1)
      case Broken => s.(tcp := net.reconnected)
      case IoException => s.(tcp := net.reconnected)
      case OtherException => s
  }

  /** The attempts made before a line is taken in, and whether there is room afterwards. */
  function Vacated(s: Stock, size: nat, maxSize: nat, first: Net, second: Net): (Stock, bool) {
    if |s.buf| < size then (s, true)
    else
      var s1 := Flushed(s, first);
      if s1.buf == [] || |s1.buf| < maxSize then (s1, true)
      else
        var s2 := Flushed(s1, second);
        (s2, s2.buf == [])
  }

  function Received(s: Stock, line: string, size: nat, maxSize: nat, first: Net, second: Net): (Stock, bool) {
    var (s', room) := Vacated(s, size, maxSize, first, second);
    (if room then s'.(buf := s'.buf + [line]) else s', room)
  }

  /** A line is refused exactly if the buffer has reached both sizes and two attempts in a
      row leave it where it is; then nothing is lost but the line. */
  lemma RefusedIffTwoAttemptsFail(s: Stock, line: string, size: nat, maxSize: nat, first: Net, second: Net)
    ensures var (s', accepted) := Received(s, line, size, maxSize, first, second);
            && (!accepted <==> (|s.buf| >= size && |s.buf| >= maxSize
                                && Flushed(s, first).buf != [] && Flushed(Flushed(s, first), second).buf != []))
            && (!accepted ==> s'.buf == s.buf && s'.sent == s.sent && s'.failures == s.failures)
  {
  }

  /** Apart from refused lines nothing disappears or changes its place, unless a send fails
      without EPIPE or EBADF: that loses exactly the block that was buffered. */
  lemma LinesAreConserved(s: Stock, line: string, size: nat, maxSize: nat, first: Net, second: Net)
    ensures var (s', accepted) := Received(s, line, size, maxSize, first, second);
            && s'.failures - s.failures in {0, 1}
            && (s'.failures == s.failures ==>
                  s'.sent + s'.buf == s.sent + s.buf + (if accepted then [line] else []))
            && (s'.failures != s.failures ==> s'.sent == s.sent && s'.buf == [line] && s.buf != [])
  {
    var (s', room) := Vacated(s, size, maxSize, first, second);
    assert (s.sent + s.buf) + [] == s.sent + s.buf;
    if room {
      assert s'.sent + (s'.buf + [line]) == (s'.sent + s'.buf) + [line];
    }
  }

  class BackendOpenTSDB {
    const bufSize: nat
    const bufMaxSize: nat
    var buf: seq<string>
    var timerIsOn: bool
    var reconnectAsked: bool
    var tcp: bool             // a socket object exists

    ghost var sent: seq<string>      // lines taken by the socket
    ghost var lines: Log<string>
    ghost var failures: nat          // blocks lost to a failing send

    ghost predicate Valid()
      reads this
    {
      && InOrder(lines) && buf == Items(lines, Pending) && sent == Items(lines, Committed)
      && (timerIsOn <==> buf != [])
      && |buf| <= Bound()
      && (failures == 0 ==> Items(lines, Lost) == [])
    }

    ghost function Snapshot(): Stock
      reads this`buf, this`sent, this`failures, this`tcp
    {
      Stock(buf, sent, failures, tcp)
    }

    function Bound(): (b: nat)
      ensures b >= bufSize && b >= bufMaxSize && b >= 1 && (b == bufSize || b == bufMaxSize || b == 1)
    {
      if bufSize >= bufMaxSize && bufSize >= 1 then bufSize else if bufMaxSize >= 1 then bufMaxSize else 1
    }

    constructor (bufSize: nat, bufMaxSize: nat)
      ensures Valid() && buf == [] && lines == [] && sent == [] && failures == 0
    {
      this.bufSize, this.bufMaxSize := bufSize, bufMaxSize;
      buf, timerIsOn, tcp, reconnectAsked := [], false, false, false;
      sent, lines, failures := [], [], 0;
    }

    method Reconnect(reconnected: bool) returns (ok: bool)
      modifies this`tcp
      ensures ok == reconnected && tcp == reconnected
    {
      tcp := reconnected;
      ok := reconnected;
    }

    /** With nothing buffered and nothing lost, the socket has everything not refused. */
    lemma SentIsKept()
      requires InOrder(lines) && [] == Items(lines, Pending) && sent == Items(lines, Committed)
      ensures Kept(lines) == sent
      ensures Items(lines, Lost) == [] ==>
        forall i :: 0 <= i < |lines| && lines[i].fate != Rejected ==> lines[i].fate == Committed
    {
      KeptIsCommittedThenPending(lines);
      NoneWithFate(lines, Pending);
      NoneWithFate(lines, Lost);
    }

    /** flushBuffer: true iff the buffer is empty afterwards. */
    method FlushBuffer(net: Net) returns (ok: bool)
      requires Valid()
      modifies this`buf, this`timerIsOn, this`tcp, this`reconnectAsked, this`sent, this`lines, this`failures
      ensures Valid() && Evolves(old(lines), lines) && Offered(lines) == Offered(old(lines))
      ensures ok <==> buf == []
      ensures var tried := old(buf) != [] && old(tcp) && net.isConnected;
        && (!tried ==> buf == old(buf) && sent == old(sent) && failures == old(failures) && tcp == old(tcp))
        && (tried && net.send.Sent? ==>
              buf == [] && sent == old(sent) + old(buf) && failures == old(failures) && tcp)
        && (tried && net.send.Failed? ==>
              buf == [] && sent == old(sent) && failures == old(failures) + 1 && tcp)
        && (tried && (net.send.Broken? || net.send.IoException?) ==>
              buf == old(buf) && sent == old(sent) && failures == old(failures) && tcp == net.reconnected)
        && (tried && net.send.OtherException? ==>
              buf == old(buf) && sent == old(sent) && failures == old(failures) && tcp)
      ensures ok ==> Kept(lines) == sent
      ensures ok && failures == 0 ==>
        forall i :: 0 <= i < |lines| && lines[i].fate != Rejected ==> lines[i].fate == Committed
      ensures Snapshot() == Flushed(old(Snapshot()), net)
      ensures var ioFailed := old(buf) != [] && old(tcp) && net.isConnected && net.send.IoException?;
              reconnectAsked == (old(reconnectAsked) || (ioFailed && !net.reconnected))
      ensures Items(lines, Rejected) == Items(old(lines), Rejected)
    {
      hide Items, InOrder, Offered, Settle, Kept;
      if buf == [] {
        timerIsOn := false;   // it never was on: see Valid
        SentIsKept();
        return true;
      }
      if !tcp || !net.isConnected {
        return false;
      }
      match net.send {
        case Broken =>
          var _ := Reconnect(net.reconnected);
          return false;
        case IoException =>
          var again := Reconnect(net.reconnected);
          if !again {
            reconnectAsked := true;
          }
          return false;
        case OtherException =>
          return false;
        case Sent =>
          CommitAll(lines, |buf|);
          lines := Settle(lines, 0, |buf|, Committed);
          sent := sent + buf;
        case Failed =>
          LoseStretch(lines, 0, |buf|);
          lines := Settle(lines, 0, |buf|, Lost);
          failures := failures + 1;
      }
      buf := [];
      timerIsOn := false;
      ok := true;
      SentIsKept();
    }

    /** The head of sensorInfo: a full buffer is flushed, twice if it has reached its
        maximum; only if that fails as well there is no room. */
    method MakeRoom(first: Net, second: Net) returns (room: bool)
      requires Valid()
      modifies this`buf, this`timerIsOn, this`tcp, this`reconnectAsked, this`sent, this`lines, this`failures
      ensures Valid() && Evolves(old(lines), lines) && Offered(lines) == Offered(old(lines))
      ensures Items(lines, Rejected) == Items(old(lines), Rejected)
      ensures room ==> |buf| < Bound()
      ensures (Snapshot(), room) == Vacated(old(Snapshot()), bufSize, bufMaxSize, first, second)
    {
      hide Items, InOrder, Offered;
      if |buf| >= bufSize {
        var ok := FlushBuffer(first);
        if !ok && |buf| >= bufMaxSize {
          ghost var before := lines;
          ok := FlushBuffer(second);
          EvolvesTransitive(old(lines), before, lines);
          if !ok {
            return false;
          }
        }
      }
      room := true;
    }

    /** sensorInfo for a configured sensor: the line is buffered, or refused if there is no room. */
    method SensorInfo(line: string, first: Net, second: Net) returns (accepted: bool)
      requires Valid()
      modifies this`buf, this`timerIsOn, this`tcp, this`reconnectAsked, this`sent, this`lines, this`failures
      ensures Valid() && Evolves(old(lines), lines) && Offered(lines) == Offered(old(lines)) + [line]
      ensures (Snapshot(), accepted) == Received(old(Snapshot()), line, bufSize, bufMaxSize, first, second)
      ensures |old(buf)| < bufSize ==> accepted && buf == old(buf) + [line] && sent == old(sent)
      ensures old(buf) != [] && |old(buf)| >= bufSize && old(tcp) && first.isConnected && first.send.Sent? ==>
        accepted && buf == [line] && sent == old(sent) + old(buf)
      ensures bufSize <= |old(buf)| < bufMaxSize && (!old(tcp) || !first.isConnected || first.send.OtherException?) ==>
        accepted && buf == old(buf) + [line] && sent == old(sent)
      ensures old(buf) != [] && |old(buf)| >= bufSize && |old(buf)| >= bufMaxSize && !old(tcp) ==>
        !accepted && buf == old(buf) && sent == old(sent)
      ensures accepted ==> buf != [] && buf[|buf| - 1] == line && Items(lines, Rejected) == Items(old(lines), Rejected)
      ensures !accepted ==> Items(lines, Rejected) == Items(old(lines), Rejected) + [line]
    {
      hide Items, InOrder, Offered;
      accepted := MakeRoom(first, second);
      ghost var fate := if accepted then Pending else Rejected;
      AppendFacts(lines, line, fate);
      EvolvesTransitive(old(lines), lines, Append(lines, line, fate));
      lines := Append(lines, line, fate);
      if !accepted {
        return;
      }
      buf := buf + [line];
      if !timerIsOn {
        timerIsOn := true;
      }
    }

    method TimerFlush(net: Net)
      requires Valid()
      modifies this`buf, this`timerIsOn, this`tcp, this`reconnectAsked, this`sent, this`lines, this`failures
      ensures Valid() && Evolves(old(lines), lines) && Offered(lines) == Offered(old(lines))
      ensures Items(lines, Rejected) == Items(old(lines), Rejected)
      ensures var tried := old(buf) != [] && old(tcp) && net.isConnected;
        && (!tried ==> buf == old(buf) && sent == old(sent) && failures == old(failures) && tcp == old(tcp))
        && (tried && net.send.Sent? ==>
              buf == [] && sent == old(sent) + old(buf) && failures == old(failures) && tcp)
        && (tried && net.send.Failed? ==>
              buf == [] && sent == old(sent) && failures == old(failures) + 1 && tcp)
        && (tried && (net.send.Broken? || net.send.IoException?) ==>
              buf == old(buf) && sent == old(sent) && failures == old(failures) && tcp == net.reconnected)
        && (tried && net.send.OtherException? ==>
              buf == old(buf) && sent == old(sent) && failures == old(failures) && tcp)
      ensures buf == [] ==> Kept(lines) == sent
      ensures buf == [] && failures == 0 ==>
        forall i :: 0 <= i < |lines| && lines[i].fate != Rejected ==> lines[i].fate == Committed
      ensures Snapshot() == Flushed(old(Snapshot()), net)
    {
      var ok := FlushBuffer(net);
    }

    method TimerReconnect(reconnected: bool)
      requires Valid()
      modifies this`tcp, this`reconnectAsked
      ensures Valid() && tcp == reconnected
      ensures reconnectAsked == (old(reconnectAsked) && !reconnected)
    {
      var ok := Reconnect(reconnected);
      if ok {
        reconnectAsked := false;
      }
    }

    /** As long as no send failed silently, what the socket took followed by the buffer is
        exactly what was offered without the refused lines, in order. */
    lemma NothingButRefusals()
      requires Valid() && failures == 0
      ensures Kept(lines) == sent + buf
      ensures forall i :: 0 <= i < |lines| && lines[i].fate != Rejected ==> lines[i].fate == Committed || lines[i].fate == Pending
    {
      KeptIsCommittedThenPending(lines);
      NoneWithFate(lines, Lost);
    }
  }
}
