/** The write and read paths of a socket (Core/TcpSock.cpp) and the link between
    two of them. The kernel is a source of results: how many bytes a `write` or
    `read` moves, or which error it reports, is an input of each step. */
module Transport {
  import opened Bytes
  import opened Framing
  import opened FastBuffers

  datatype WriteResult = Wrote(n: nat) | WriteAgain | WriteInterrupted | WriteFailed
  datatype ReadResult = Got(n: nat) | ReadEof | ReadAgain | ReadInterrupted | ReadFailed

  /** The sending half of a socket: `allow` is `m_allow_more_send`. */
  datatype Sender = Sender(outbuf: seq<Byte>, writeable: bool, allow: bool, closed: bool)

  predicate Refuses(s: Sender) { s.closed || !s.writeable || !s.allow }

  function ShutDown(s: Sender): Sender {
    if s.closed then s else s.(writeable := false, outbuf := [])
  }

  /** What `Close` leaves of a sender. */
  function ClosedDown(s: Sender): Sender { s.(closed := true, writeable := false, allow := false) }

  datatype Sent = Sent(sender: Sender, written: seq<Byte>, ok: bool)

  function Min(a: nat, b: nat): nat { if a < b then a else b }

  /** `DoSend`: write until the kernel takes no more. */
  function SendLoop(s: Sender, writes: seq<WriteResult>): Sent
    decreases |writes|
  {
    if writes == [] then Sent(s, [], true)
    else match writes[0]
      case WriteAgain => Sent(s, [], true)
      case WriteInterrupted => SendLoop(s, writes[1..])
      case WriteFailed => Sent(ClosedDown(s), [], false)
      case Wrote(n) =>
        var k := Min(n, |s.outbuf|);
        if k == 0 then Sent(s, [], true)
        else
          var t := s.(outbuf := s.outbuf[k..]);
          if t.outbuf == [] && !t.allow then Sent(ShutDown(t), s.outbuf[..k], false)
          else
            var r := SendLoop(t, writes[1..]);
            r.(written := s.outbuf[..k] + r.written)
  }

  /** `SendDataInLoop`. */
  function SendInLoop(s: Sender, data: seq<Byte>, writes: seq<WriteResult>): Sent {
    if Refuses(s) then Sent(s, [], false)
    else SendLoop(s.(outbuf := s.outbuf + data), writes)
  }

  /** A write loop hands the kernel a prefix of the buffer and keeps the rest;
      flags only go down. */
  lemma {:induction false} SendLoopKeepsBytes(s: Sender, writes: seq<WriteResult>)
    ensures var r := SendLoop(s, writes);
            && r.written + r.sender.outbuf == s.outbuf
            && (r.sender.allow ==> s.allow) && (s.closed ==> r.sender.closed)
            && (r.sender.writeable ==> s.writeable)
    decreases |writes|
  {
    if writes != [] {
      match writes[0]
      case WriteInterrupted => SendLoopKeepsBytes(s, writes[1..]);
      case Wrote(n) =>
        var k := Min(n, |s.outbuf|);
        var t := s.(outbuf := s.outbuf[k..]);
        SendLoopKeepsBytes(t, writes[1..]);
        var r := SendLoop(t, writes[1..]);
        Assoc(s.outbuf[..k], r.written, r.sender.outbuf);
        assert s.outbuf[..k] + s.outbuf[k..] == s.outbuf;
      case _ =>
    }
  }

  // ------------------------------------------------------------- how much is written

  /** The kernel takes bytes, or asks to try again at once. */
  predicate Proceeds(w: WriteResult) { w.WriteInterrupted? || (w.Wrote? && w.n > 0) }

  /** The results before the first that stops a write loop. */
  function Proceeding(writes: seq<WriteResult>): (k: nat)
    ensures k <= |writes| && (k < |writes| ==> !Proceeds(writes[k]))
    ensures forall i :: 0 <= i < k ==> Proceeds(writes[i])
  {
    if writes == [] || !Proceeds(writes[0]) then 0 else 1 + Proceeding(writes[1..])
  }

  /** The bytes that the first `k` results offer to take. */
  function Offered(writes: seq<WriteResult>, k: nat): nat
    requires k <= |writes|
  {
    if k == 0 then 0 else Offered(writes, k - 1) + if writes[k - 1].Wrote? then writes[k - 1].n else 0
  }

  function Granted(writes: seq<WriteResult>): nat { Offered(writes, Proceeding(writes)) }

  /** A failure is met before a result for which nothing is left to write. */
  ghost predicate Fails(writes: seq<WriteResult>, bytes: nat) {
    exists i :: FailsAt(writes, bytes, i)
  }

  ghost predicate FailsAt(writes: seq<WriteResult>, bytes: nat, i: int) {
    && 0 <= i < |writes| && writes[i].WriteFailed?
    && forall j :: 0 <= j < i ==> Proceeds(writes[j]) && (writes[j].Wrote? ==> Offered(writes, j) < bytes)
  }

  lemma {:induction false} OfferedTail(writes: seq<WriteResult>, k: nat)
    requires k < |writes|
    ensures Offered(writes, k + 1) == (if writes[0].Wrote? then writes[0].n else 0) + Offered(writes[1..], k)
    decreases k
  {
    if k == 0 {
      assert Offered(writes, 0) == 0;
    } else {
      OfferedTail(writes, k - 1);
      assert writes[1..][k - 1] == writes[k];
    }
  }

  lemma GrantedTail(writes: seq<WriteResult>)
    requires writes != []
    ensures Granted(writes) ==
            if Proceeds(writes[0]) then (if writes[0].Wrote? then writes[0].n else 0) + Granted(writes[1..]) else 0
  {
    if Proceeds(writes[0]) {
      OfferedTail(writes, Proceeding(writes[1..]));
    }
  }

  lemma FailsTail(writes: seq<WriteResult>, bytes: nat)
    requires writes != [] && Proceeds(writes[0]) && (writes[0].Wrote? ==> bytes > 0)
    ensures var n := if writes[0].Wrote? then writes[0].n else 0;
            Fails(writes, bytes) <==> Fails(writes[1..], if n < bytes then bytes - n else 0)
  {
    var n := if writes[0].Wrote? then writes[0].n else 0;
    var rest, left := writes[1..], if n < bytes then bytes - n else 0;
    forall j | 0 <= j < |rest| ensures Offered(writes, j + 1) == n + Offered(rest, j) && rest[j] == writes[j + 1] {
      OfferedTail(writes, j);
    }
    if i :| FailsAt(writes, bytes, i) {
      forall j | 0 <= j < i - 1 ensures Proceeds(rest[j]) && (rest[j].Wrote? ==> Offered(rest, j) < left) {
        assert Proceeds(writes[j + 1]) && (writes[j + 1].Wrote? ==> Offered(writes, j + 1) < bytes);
      }
      assert FailsAt(rest, left, i - 1);
    }
    if i :| FailsAt(rest, left, i) {
      forall j | 0 <= j < i + 1 ensures Proceeds(writes[j]) && (writes[j].Wrote? ==> Offered(writes, j) < bytes) {
        if j > 0 {
          assert Proceeds(rest[j - 1]) && (rest[j - 1].Wrote? ==> Offered(rest, j - 1) < left);
        } else {
          assert Offered(writes, 0) == 0;
        }
      }
      assert FailsAt(writes, bytes, i + 1);
    }
  }

  lemma FailsNow(writes: seq<WriteResult>, bytes: nat)
    requires writes != [] && (!Proceeds(writes[0]) || (writes[0].Wrote? && bytes == 0))
    ensures Fails(writes, bytes) <==> writes[0].WriteFailed?
  {
    assert forall i :: FailsAt(writes, bytes, i) ==> i == 0 by {
      assert Offered(writes, 0) == 0;
    }
    if writes[0].WriteFailed? {
      assert FailsAt(writes, bytes, 0);
    }
  }

  /** Exactly what is left of a sender that is granted `granted` bytes, and meets a
      failure if `fails`: it writes as much as it is granted, up to all there is; it shuts
      the socket down when that empties a buffer to which no more may be added; it closes
      the socket on a failure; it reports false in these two cases and no other; and it
      changes nothing else. */
  function Outcome(s: Sender, granted: nat, fails: bool): Sent {
    var k := Min(granted, |s.outbuf|);
    if !s.allow && s.outbuf != [] && granted >= |s.outbuf| then
      Sent(Sender([], s.closed && s.writeable, false, s.closed), s.outbuf, false)
    else if fails then Sent(Sender(s.outbuf[k..], false, false, true), s.outbuf[..k], false)
    else Sent(Sender(s.outbuf[k..], s.writeable, s.allow, s.closed), s.outbuf[..k], true)
  }

  lemma OutcomeNone(s: Sender, fails: bool)
    ensures Outcome(s, 0, fails) == if fails then Sent(ClosedDown(s), [], false) else Sent(s, [], true)
  {
    NoneOf(s.outbuf);
    if !fails {
      assert Sender(s.outbuf[0..], s.writeable, s.allow, s.closed) == s;
    }
  }

  lemma NoneOf(bytes: seq<Byte>)
    ensures bytes[..0] == [] && bytes[0..] == bytes
  {
  }

  lemma OutcomeStep(s: Sender, n: nat, more: nat, fails: bool)
    requires n > 0 && s.outbuf != []
    ensures var k, t := Min(n, |s.outbuf|), Without(s, n); var r := Outcome(t, more, fails);
            Outcome(s, n + more, fails) ==
            if t.outbuf == [] && !t.allow then Sent(ShutDown(t), s.outbuf[..k], false)
            else r.(written := s.outbuf[..k] + r.written)
  {
    var k, t := Min(n, |s.outbuf|), Without(s, n);
    if k == |s.outbuf| {
      assert s.outbuf[..k] == s.outbuf && t.outbuf == [];
      assert t.outbuf[..0] == [] && s.outbuf + [] == s.outbuf;
    } else {
      var m := Min(more, |t.outbuf|);
      assert s.outbuf[..k] + t.outbuf[..m] == s.outbuf[..k + m] && t.outbuf[m..] == s.outbuf[k + m..];
      assert m == |t.outbuf| ==> s.outbuf[..k + m] == s.outbuf && t.outbuf[..m] == t.outbuf;
    }
  }

  /** The write loop in one step, from what the kernel's answers grant altogether. */
  lemma {:induction false} SendLoopExact(s: Sender, writes: seq<WriteResult>)
    ensures SendLoop(s, writes) == Outcome(s, Granted(writes), Fails(writes, |s.outbuf|))
    decreases |writes|
  {
    if writes == [] || !Proceeds(writes[0]) || (writes[0].Wrote? && s.outbuf == []) {
      SendLoopStops(s, writes);
    } else if writes[0].Wrote? {
      SendLoopTakes(s, writes);
    } else {
      SendLoopRetries(s, writes);
    }
  }

  lemma {:induction false} SendLoopTakes(s: Sender, writes: seq<WriteResult>)
    requires writes != [] && writes[0].Wrote? && writes[0].n > 0 && s.outbuf != []
    ensures SendLoop(s, writes) == Outcome(s, Granted(writes), Fails(writes, |s.outbuf|))
    decreases |writes|, 0
  {
    var more, fails := RestOf(s, writes);
    SendLoopExact(Without(s, writes[0].n), writes[1..]);
    SendLoopTook(s, writes, writes[0].n, more, fails);
  }

  lemma {:induction false} SendLoopRetries(s: Sender, writes: seq<WriteResult>)
    requires writes != [] && writes[0].WriteInterrupted?
    ensures SendLoop(s, writes) == Outcome(s, Granted(writes), Fails(writes, |s.outbuf|))
    decreases |writes|, 0
  {
    var more, fails := RestOf(s, writes);
    SendLoopExact(Without(s, 0), writes[1..]);
    SendLoopAgain(s, writes, more, fails);
  }

  /** What the other answers grant, and whether they fail, once the first is spent. */
  lemma RestOf(s: Sender, writes: seq<WriteResult>) returns (more: nat, fails: bool)
    requires writes != [] && Proceeds(writes[0]) && (writes[0].Wrote? ==> s.outbuf != [])
    ensures var t := Without(s, if writes[0].Wrote? then writes[0].n else 0);
            more == Granted(writes[1..]) && fails == Fails(writes[1..], |t.outbuf|)
    ensures Granted(writes) == (if writes[0].Wrote? then writes[0].n + more else more) && Fails(writes, |s.outbuf|) == fails
  {
    GrantedTail(writes);
    FailsTail(writes, |s.outbuf|);
    more := Granted(writes[1..]);
    fails := Fails(writes, |s.outbuf|);
  }

  lemma SendLoopStops(s: Sender, writes: seq<WriteResult>)
    requires writes == [] || !Proceeds(writes[0]) || (writes[0].Wrote? && s.outbuf == [])
    ensures SendLoop(s, writes) == Outcome(s, Granted(writes), Fails(writes, |s.outbuf|))
  {
    if writes == [] {
      assert !Fails(writes, |s.outbuf|);
      OutcomeNone(s, false);
    } else if !Proceeds(writes[0]) {
      GrantedTail(writes);
      FailsNow(writes, |s.outbuf|);
      OutcomeNone(s, writes[0].WriteFailed?);
    } else {
      FailsNow(writes, 0);
      OutcomeEmpty(s, Granted(writes));
    }
  }

  lemma OutcomeEmpty(s: Sender, granted: nat)
    requires s.outbuf == []
    ensures Outcome(s, granted, false) == Sent(s, [], true)
  {
    NoneOf(s.outbuf);
    assert Sender(s.outbuf[0..], s.writeable, s.allow, s.closed) == s;
  }

  /** A sender after `n` bytes, or all it has, have been taken. */
  function Without(s: Sender, n: nat): (t: Sender)
    ensures |t.outbuf| == if n < |s.outbuf| then |s.outbuf| - n else 0
  {
    s.(outbuf := s.outbuf[Min(n, |s.outbuf|)..])
  }

  lemma SendLoopAgain(s: Sender, writes: seq<WriteResult>, more: nat, fails: bool)
    requires writes != [] && writes[0].WriteInterrupted?
    requires SendLoop(Without(s, 0), writes[1..]) == Outcome(Without(s, 0), more, fails)
    ensures SendLoop(s, writes) == Outcome(s, more, fails)
  {
    NoneOf(s.outbuf);
    assert Without(s, 0) == s;
  }

  lemma SendLoopTook(s: Sender, writes: seq<WriteResult>, n: nat, more: nat, fails: bool)
    requires writes != [] && writes[0] == Wrote(n) && n > 0 && s.outbuf != []
    requires SendLoop(Without(s, n), writes[1..]) == Outcome(Without(s, n), more, fails)
    ensures SendLoop(s, writes) == Outcome(s, n + more, fails)
  {
    SendLoopWrote(s, writes, n, Outcome(Without(s, n), more, fails));
    OutcomeStep(s, n, more, fails);
  }

  lemma SendLoopWrote(s: Sender, writes: seq<WriteResult>, n: nat, r: Sent)
    requires writes != [] && writes[0] == Wrote(n) && n > 0 && s.outbuf != [] && SendLoop(Without(s, n), writes[1..]) == r
    ensures var t, k := Without(s, n), Min(n, |s.outbuf|);
            SendLoop(s, writes) == if t.outbuf == [] && !t.allow then Sent(ShutDown(t), s.outbuf[..k], false)
                                   else r.(written := s.outbuf[..k] + r.written)
  {
  }

  /** The receiving half: what is buffered, the current block size, and every
      frame handed to the protocol handler so far. */
  datatype Receiver = Receiver(inbuf: seq<Byte>, block: nat, dispatched: seq<seq<Byte>>, open: bool)

  datatype Reading = Reading(receiver: Receiver, wire: seq<Byte>)

  /** One successful `read` of `data` followed by the protocol's read loop. */
  function Absorb(h: nat, r: Receiver, data: seq<Byte>): Receiver
    requires 4 <= h
  {
    var p := Parse(h, r.inbuf + data);
    r.(inbuf := p.rest,
       dispatched := r.dispatched + p.frames,
       block := if |data| == r.block then 2 * r.block else r.block)
  }

  function Dropped(r: Receiver): Receiver { r.(inbuf := [], open := false) }

  /** The read branch of `HandleEvent`: read until the kernel has nothing left. */
  function ReadEvent(h: nat, r: Receiver, wire: seq<Byte>, results: seq<ReadResult>): Reading
    requires 4 <= h
    decreases |results|
  {
    if results == [] then Reading(r, wire)
    else match results[0]
      case ReadAgain => Reading(r, wire)
      case ReadInterrupted => ReadEvent(h, r, wire, results[1..])
      case ReadEof => Reading(Dropped(r), wire)
      case ReadFailed => Reading(Dropped(r), wire)
      case Got(n) =>
        var k := Min(n, Min(r.block, |wire|));
        if k == 0 then Reading(r, wire)
        else ReadEvent(h, Absorb(h, r, wire[..k]), wire[k..], results[1..])
  }

  // ------------------------------------------------------------- how much is read

  /** What a read of `n` bytes leaves of the block size. */
  function Grown(block: nat, n: nat): nat { if n == block then 2 * block else block }

  /** The bytes that a read event takes from the `avail` bytes that have arrived. */
  function ReadTotal(block: nat, avail: nat, results: seq<ReadResult>): (k: nat)
    ensures k <= avail
    decreases |results|
  {
    if results == [] || results[0].ReadAgain? || results[0].ReadEof? || results[0].ReadFailed? then 0
    else if results[0].ReadInterrupted? then ReadTotal(block, avail, results[1..])
    else
      var n := Min(results[0].n, Min(block, avail));
      if n == 0 then 0 else n + ReadTotal(Grown(block, n), avail - n, results[1..])
  }

  /** The event ends the connection: end of file or a failure is met while reading. */
  predicate ReadEnds(block: nat, avail: nat, results: seq<ReadResult>)
    decreases |results|
  {
    if results == [] || results[0].ReadAgain? then false
    else if results[0].ReadEof? || results[0].ReadFailed? then true
    else if results[0].ReadInterrupted? then ReadEnds(block, avail, results[1..])
    else
      var n := Min(results[0].n, Min(block, avail));
      n > 0 && ReadEnds(Grown(block, n), avail - n, results[1..])
  }

  /** Exactly what a read event does, however the bytes come in pieces: the frames of all
      it takes are dispatched in order, the remainder is kept, or dropped with the
      connection. */
  lemma {:induction false} ReadEventExact(h: nat, r: Receiver, wire: seq<Byte>, results: seq<ReadResult>)
    requires 4 <= h && r.open && !HasFrame(h, r.inbuf)
    ensures var e := ReadEvent(h, r, wire, results);
            var k := ReadTotal(r.block, |wire|, results); var p := Parse(h, r.inbuf + wire[..k]);
            && e.wire == wire[k..] && e.receiver.dispatched == r.dispatched + p.frames
            && (e.receiver.open <==> !ReadEnds(r.block, |wire|, results))
            && e.receiver.inbuf == if e.receiver.open then p.rest else []
    decreases |results|, 2
  {
    if results == [] || results[0].ReadAgain? || results[0].ReadEof? || results[0].ReadFailed? {
      NothingRead(h, r, wire);
    } else if results[0].ReadInterrupted? {
      ReadEventExact(h, r, wire, results[1..]);
    } else {
      var n := Min(results[0].n, Min(r.block, |wire|));
      if n == 0 {
        NothingRead(h, r, wire);
      } else {
        ReadEventGot(h, r, wire, results, n);
      }
    }
  }

  /** What `ReadEventExact` says of one read event. */
  ghost predicate ReadsExactly(h: nat, r: Receiver, wire: seq<Byte>, e: Reading, k: nat, ends: bool)
    requires 4 <= h && k <= |wire|
  {
    var p := Parse(h, r.inbuf + wire[..k]);
    && e.wire == wire[k..] && e.receiver.dispatched == r.dispatched + p.frames
    && (e.receiver.open <==> !ends)
    && e.receiver.inbuf == if e.receiver.open then p.rest else []
  }

  lemma {:induction false} ReadEventGot(h: nat, r: Receiver, wire: seq<Byte>, results: seq<ReadResult>, n: nat)
    requires 4 <= h && r.open && !HasFrame(h, r.inbuf)
    requires results != [] && results[0].Got? && n == Min(results[0].n, Min(r.block, |wire|)) > 0
    ensures ReadsExactly(h, r, wire, ReadEvent(h, r, wire, results), ReadTotal(r.block, |wire|, results),
                         ReadEnds(r.block, |wire|, results))
    decreases |results|, 1
  {
    var e, m, ends := ReadEventAfter(h, r, wire, results, n);
    ReadJoined(h, r, wire, n, m, e, ends);
  }

  /** The rest of the event, once `n` bytes have been read. */
  lemma {:induction false} ReadEventAfter(h: nat, r: Receiver, wire: seq<Byte>, results: seq<ReadResult>, n: nat)
    returns (e: Reading, m: nat, ends: bool)
    requires 4 <= h && r.open && !HasFrame(h, r.inbuf)
    requires results != [] && results[0].Got? && n == Min(results[0].n, Min(r.block, |wire|)) > 0
    ensures e == ReadEvent(h, r, wire, results) && n + m == ReadTotal(r.block, |wire|, results)
    ensures ends == ReadEnds(r.block, |wire|, results)
    ensures ReadsExactly(h, Absorb(h, r, wire[..n]), wire[n..], e, m, ends)
    decreases |results|, 0
  {
    var a := Absorb(h, r, wire[..n]);
    ReadEventTakes(h, r, wire, results, n);
    e, m, ends := ReadEvent(h, a, wire[n..], results[1..]), ReadTotal(a.block, |wire| - n, results[1..]),
                  ReadEnds(a.block, |wire| - n, results[1..]);
    ParseShape(h, r.inbuf + wire[..n]);
    ReadEventRest(h, a, wire[n..], results[1..]);
  }

  lemma {:induction false} ReadEventRest(h: nat, r: Receiver, wire: seq<Byte>, results: seq<ReadResult>)
    requires 4 <= h && r.open && !HasFrame(h, r.inbuf)
    ensures ReadsExactly(h, r, wire, ReadEvent(h, r, wire, results), ReadTotal(r.block, |wire|, results),
                         ReadEnds(r.block, |wire|, results))
    decreases |results|, 3
  {
    ReadEventExact(h, r, wire, results);
  }

  lemma ReadEventTakes(h: nat, r: Receiver, wire: seq<Byte>, results: seq<ReadResult>, n: nat)
    requires 4 <= h && results != [] && results[0].Got? && n == Min(results[0].n, Min(r.block, |wire|)) > 0
    ensures var a := Absorb(h, r, wire[..n]);
            && a.open == r.open && a.block == Grown(r.block, n)
            && ReadEvent(h, r, wire, results) == ReadEvent(h, a, wire[n..], results[1..])
            && ReadTotal(r.block, |wire|, results) == n + ReadTotal(a.block, |wire| - n, results[1..])
            && ReadEnds(r.block, |wire|, results) == ReadEnds(a.block, |wire| - n, results[1..])
  {
  }

  lemma ReadJoined(h: nat, r: Receiver, wire: seq<Byte>, n: nat, m: nat, e: Reading, ends: bool)
    requires 4 <= h && n <= |wire| && m <= |wire| - n
    requires ReadsExactly(h, Absorb(h, r, wire[..n]), wire[n..], e, m, ends)
    ensures ReadsExactly(h, r, wire, e, n + m, ends)
  {
    ReadJoins(h, r, wire, n, m);
  }

  lemma NothingRead(h: nat, r: Receiver, wire: seq<Byte>)
    requires 4 <= h && !HasFrame(h, r.inbuf)
    ensures Parse(h, r.inbuf + wire[..0]) == Parsed([], r.inbuf) && wire[0..] == wire
    ensures r.dispatched + [] == r.dispatched
  {
    assert r.inbuf + wire[..0] == r.inbuf;
  }

  /** A read of `n` bytes and one of `m` more are one read of both. */
  lemma ReadJoins(h: nat, r: Receiver, wire: seq<Byte>, n: nat, m: nat)
    requires 4 <= h && n <= |wire| && m <= |wire| - n
    ensures var a := Absorb(h, r, wire[..n]);
            var p, q := Parse(h, a.inbuf + wire[n..][..m]), Parse(h, r.inbuf + wire[..n + m]);
            && a.dispatched + p.frames == r.dispatched + q.frames && p.rest == q.rest
            && wire[n..][m..] == wire[n + m..]
  {
    var first := Parse(h, r.inbuf + wire[..n]);
    ParseSplit(h, r.inbuf + wire[..n], wire[n..][..m]);
    assert (r.inbuf + wire[..n]) + wire[n..][..m] == r.inbuf + wire[..n + m];
    Assoc(r.dispatched, first.frames, Parse(h, first.rest + wire[n..][..m]).frames);
  }

  /** The kernel reports no more than it was asked for and has. */
  predicate HonestReads(block: nat, avail: nat, results: seq<ReadResult>)
    decreases |results|
  {
    results == [] ||
    (if results[0].Got? then results[0].n <= block && results[0].n <= avail
                             && HonestReads(Grown(block, results[0].n), avail - results[0].n, results[1..])
     else HonestReads(block, avail, results[1..]))
  }

  function ReadProceeding(results: seq<ReadResult>): (k: nat)
    ensures k <= |results|
  {
    if results != [] && (results[0].ReadInterrupted? || (results[0].Got? && results[0].n > 0))
    then 1 + ReadProceeding(results[1..]) else 0
  }

  function Reported(results: seq<ReadResult>): nat {
    if results == [] then 0 else (if results[0].Got? then results[0].n else 0) + Reported(results[1..])
  }

  /** Of an honest kernel every byte is taken that it reports before the first result that
      stops reading, and the connection ends exactly if that is end of file or a failure. */
  lemma {:induction false} ReadTotalIsReported(block: nat, avail: nat, results: seq<ReadResult>)
    requires HonestReads(block, avail, results)
    ensures ReadTotal(block, avail, results) == Reported(results[..ReadProceeding(results)])
    ensures ReadEnds(block, avail, results) <==>
            var k := ReadProceeding(results); k < |results| && (results[k].ReadEof? || results[k].ReadFailed?)
    decreases |results|
  {
    if results != [] && (results[0].ReadInterrupted? || (results[0].Got? && results[0].n > 0)) {
      var k := ReadProceeding(results[1..]);
      assert results[..k + 1][1..] == results[1..][..k];
      if results[0].Got? {
        var n := results[0].n;
        ReadTotalIsReported(Grown(block, n), avail - n, results[1..]);
      } else {
        ReadTotalIsReported(block, avail, results[1..]);
      }
    } else {
      assert results[..0] == [];
    }
  }

  // ------------------------------------------------------------- the link

  /** A task of the sender's write loop. */
  datatype Task = SendTask(frame: seq<Byte>) | ShutTask

  /** Both ends of a connection. `posted` are the frames `SendData` accepted from
      other threads, `sent` those that reached the output buffer. */
  datatype Link = Link(h: nat, posted: seq<seq<Byte>>, tasks: seq<Task>, sender: Sender, sent: seq<seq<Byte>>,
                       wire: seq<Byte>, receiver: Receiver)

  datatype Event =
    | Post(frame: seq<Byte>)
    | RunTask(writes: seq<WriteResult>)
    | SendDirect(frame: seq<Byte>, writes: seq<WriteResult>)
    | WriteReady(writes: seq<WriteResult>)
    | DisAllowSend
    | CloseSender
    | ReadReady(results: seq<ReadResult>)

  function Fresh(h: nat, block: nat): Link {
    Link(h, [], [], Sender([], true, true, false), [], [], Receiver([], block, [], true))
  }

  /** Callers hand over whole frames. */
  predicate FrameEvent(h: nat, e: Event) {
    (e.Post? || e.SendDirect?) ==> IsFrame(h, e.frame)
  }

  function Delivered(l: Link, r: Sent): Link {
    l.(sender := r.sender, wire := l.wire + r.written)
  }

  function RunSend(l: Link, frame: seq<Byte>, writes: seq<WriteResult>): Link {
    if Refuses(l.sender) then l
    else Delivered(l.(sent := l.sent + [frame]), SendInLoop(l.sender, frame, writes))
  }

  function Next(l: Link, e: Event): Link
    requires 4 <= l.h
  {
    match e
    case Post(frame) =>
      if Refuses(l.sender) then l
      else l.(posted := l.posted + [frame], tasks := l.tasks + [SendTask(frame)])
    case RunTask(writes) =>
      if l.tasks == [] then l
      else
        var rest := l.(tasks := l.tasks[1..]);
        (match l.tasks[0]
         case SendTask(frame) => RunSend(rest, frame, writes)
         case ShutTask => rest.(sender := ShutDown(l.sender)))
    case SendDirect(frame, writes) => RunSend(l, frame, writes)
    case WriteReady(writes) =>
      if l.sender.closed || !l.sender.writeable then l
      else Delivered(l, SendLoop(l.sender, writes))
    case DisAllowSend =>
      l.(sender := l.sender.(allow := false),
         tasks := if l.sender.outbuf == [] then l.tasks + [ShutTask] else l.tasks)
    case CloseSender => l.(sender := l.sender.(closed := true, writeable := false, allow := false))
    case ReadReady(results) =>
      if !l.receiver.open then l
      else
        var r := ReadEvent(l.h, l.receiver, l.wire, results);
        l.(receiver := r.receiver, wire := r.wire)
  }

  /** Every byte is in exactly one place, in order; a pending shutdown has
      nothing to discard. */
  ghost predicate Inv(l: Link) {
    && 4 <= l.h
    && AllFrames(l.h, l.sent) && AllFrames(l.h, l.receiver.dispatched)
    && (forall t :: t in l.tasks && t.SendTask? ==> IsFrame(l.h, t.frame))
    && l.receiver.dispatched <= l.sent
    && (l.receiver.open ==>
          && Flat(l.receiver.dispatched) + (l.receiver.inbuf + (l.wire + l.sender.outbuf)) == Flat(l.sent)
          && !HasFrame(l.h, l.receiver.inbuf))
    && (ShutTask in l.tasks ==> !l.sender.allow && l.sender.outbuf == [])
  }

  lemma FlatOne(a: seq<seq<Byte>>, f: seq<Byte>)
    ensures Flat(a + [f]) == Flat(a) + f
  {
    FlatAppend(a, [f]);
    assert Flat([f]) == f + Flat([f][1..]) == f;
  }

  lemma Regroup(a: seq<Byte>, b: seq<Byte>, c: seq<Byte>, d: seq<Byte>, e: seq<Byte>)
    ensures a + (b + (c + (d + e))) == a + (b + ((c + d) + e))
    ensures a + (b + (c + (d + e))) == (a + (b + (c + d))) + e
  {
  }

  /** The write loop moves bytes from the output buffer to the wire. */
  lemma DeliverKeeps(l: Link, out: seq<Byte>, writes: seq<WriteResult>, sent: seq<seq<Byte>>)
    requires 4 <= l.h
    requires l.receiver.open
    requires Flat(l.receiver.dispatched) + (l.receiver.inbuf + (l.wire + out)) == Flat(sent)
    ensures var r := SendLoop(l.sender.(outbuf := out), writes);
            Flat(l.receiver.dispatched) + (l.receiver.inbuf + ((l.wire + r.written) + r.sender.outbuf)) == Flat(sent)
  {
    var r := SendLoop(l.sender.(outbuf := out), writes);
    SendLoopKeepsBytes(l.sender.(outbuf := out), writes);
    Regroup(Flat(l.receiver.dispatched), l.receiver.inbuf, l.wire, r.written, r.sender.outbuf);
  }

  lemma RunSendKeeps(l: Link, frame: seq<Byte>, writes: seq<WriteResult>)
    requires Inv(l) && IsFrame(l.h, frame)
    ensures Inv(RunSend(l, frame, writes))
  {
    if !Refuses(l.sender) {
      var s, out := l.sent + [frame], l.sender.outbuf + frame;
      SendLoopKeepsBytes(l.sender.(outbuf := out), writes);
      if l.receiver.open {
        FlatOne(l.sent, frame);
        Regroup(Flat(l.receiver.dispatched), l.receiver.inbuf, l.wire, l.sender.outbuf, frame);
        DeliverKeeps(l, out, writes, s);
      }
    }
  }

  /** Reading a chunk moves its bytes from the wire to frames and remainder. */
  lemma AbsorbKeeps(h: nat, r: Receiver, data: seq<Byte>, later: seq<Byte>, sent: seq<seq<Byte>>)
    requires 4 <= h && AllFrames(h, sent) && AllFrames(h, r.dispatched)
    requires Flat(r.dispatched) + (r.inbuf + (data + later)) == Flat(sent)
    ensures var a := Absorb(h, r, data);
            && AllFrames(h, a.dispatched) && a.dispatched <= sent && !HasFrame(h, a.inbuf)
            && Flat(a.dispatched) + (a.inbuf + later) == Flat(sent)
  {
    var p := Parse(h, r.inbuf + data);
    ParseShape(h, r.inbuf + data);
    ParseKeepsBytes(h, r.inbuf + data);
    FlatAppend(r.dispatched, p.frames);
    Assoc(r.inbuf, data, later);
    Assoc(Flat(p.frames), p.rest, later);
    Assoc(Flat(r.dispatched), Flat(p.frames), p.rest + later);
    FramesPrefix(h, r.dispatched + p.frames, p.rest + later, sent);
  }

  lemma {:induction false} ReadEventKeeps(h: nat, r: Receiver, wire: seq<Byte>, out: seq<Byte>, sent: seq<seq<Byte>>,
                                          results: seq<ReadResult>)
    requires 4 <= h && AllFrames(h, sent) && AllFrames(h, r.dispatched) && r.dispatched <= sent
    requires r.open && !HasFrame(h, r.inbuf)
    requires Flat(r.dispatched) + (r.inbuf + (wire + out)) == Flat(sent)
    ensures var e := ReadEvent(h, r, wire, results);
            && AllFrames(h, e.receiver.dispatched) && e.receiver.dispatched <= sent
            && (e.receiver.open ==>
                  && !HasFrame(h, e.receiver.inbuf)
                  && Flat(e.receiver.dispatched) + (e.receiver.inbuf + (e.wire + out)) == Flat(sent))
    decreases |results|
  {
    if results != [] {
      match results[0]
      case ReadInterrupted => ReadEventKeeps(h, r, wire, out, sent, results[1..]);
      case Got(n) =>
        var k := Min(n, Min(r.block, |wire|));
        if k != 0 {
          Assoc(wire[..k], wire[k..], out);
          assert wire[..k] + wire[k..] == wire;
          AbsorbKeeps(h, r, wire[..k], wire[k..] + out, sent);
          ReadEventKeeps(h, Absorb(h, r, wire[..k]), wire[k..], out, sent, results[1..]);
        }
      case _ =>
    }
  }

  lemma ShutDownKeeps(l: Link)
    requires Inv(l) && l.tasks != [] && l.tasks[0] == ShutTask
    ensures Inv(l.(tasks := l.tasks[1..], sender := ShutDown(l.sender)))
  {
  }

  lemma NextKeepsInv(l: Link, e: Event)
    requires Inv(l) && FrameEvent(l.h, e)
    ensures Inv(Next(l, e))
  {
    match e
    case RunTask(writes) =>
      if l.tasks != [] {
        match l.tasks[0]
        case SendTask(frame) => RunSendKeeps(l.(tasks := l.tasks[1..]), frame, writes);
        case ShutTask => ShutDownKeeps(l);
      }
    case SendDirect(frame, writes) => RunSendKeeps(l, frame, writes);
    case WriteReady(writes) =>
      SendLoopKeepsBytes(l.sender, writes);
      if l.receiver.open { DeliverKeeps(l, l.sender.outbuf, writes, l.sent); }
    case ReadReady(results) =>
      if l.receiver.open {
        ReadEventKeeps(l.h, l.receiver, l.wire, l.sender.outbuf, l.sent, results);
      }
    case _ =>
  }

  function Run(l: Link, es: seq<Event>): (r: Link)
    requires 4 <= l.h
    ensures r.h == l.h
    decreases |es|
  {
    if es == [] then l else Run(Next(l, es[0]), es[1..])
  }

  lemma {:induction false} RunKeepsInv(l: Link, es: seq<Event>)
    requires Inv(l) && forall e :: e in es ==> FrameEvent(l.h, e)
    ensures Inv(Run(l, es))
    decreases |es|
  {
    if es != [] {
      NextKeepsInv(l, es[0]);
      RunKeepsInv(Next(l, es[0]), es[1..]);
    }
  }

  /** End to end: whatever the partial writes, the splits into results, the errors
      and the shutdowns, the frames dispatched are a prefix of the frames sent;
      they are all of them as soon as no byte is left in the output buffer or on
      the wire; and one parse of everything sent gives the dispatched frames
      followed by what is still on its way. */
  lemma EndToEnd(h: nat, block: nat, es: seq<Event>)
    requires 4 <= h && forall e :: e in es ==> FrameEvent(h, e)
    ensures var l := Run(Fresh(h, block), es);
            && l.receiver.dispatched <= l.sent
            && (l.receiver.open && l.wire == [] && l.sender.outbuf == [] ==>
                  l.receiver.dispatched == l.sent && l.receiver.inbuf == [])
            && (l.receiver.open ==>
                  Parse(h, Flat(l.sent)) ==
                  Parsed(l.receiver.dispatched + Parse(h, l.receiver.inbuf + (l.wire + l.sender.outbuf)).frames, []))
  {
    var l := Run(Fresh(h, block), es);
    RunKeepsInv(Fresh(h, block), es);
    if l.receiver.open {
      var later := l.receiver.inbuf + (l.wire + l.sender.outbuf);
      ParseFlat(h, l.receiver.dispatched, later);
      ParseFlat(h, l.sent, []);
      assert Flat(l.sent) + [] == Flat(l.sent);
      if l.wire == [] && l.sender.outbuf == [] {
        assert later == l.receiver.inbuf;
        FramesAll(h, l.receiver.dispatched, l.receiver.inbuf, l.sent);
      }
    }
  }

  /** A shutdown that `DisAllowSend` asked for never discards accepted bytes: when
      its turn comes the output buffer is empty. */
  lemma ShutDownLosesNothing(h: nat, block: nat, es: seq<Event>)
    requires 4 <= h && forall e :: e in es ==> FrameEvent(h, e)
    ensures var l := Run(Fresh(h, block), es);
            l.tasks != [] && l.tasks[0] == ShutTask ==> l.sender.outbuf == []
  {
    RunKeepsInv(Fresh(h, block), es);
  }

  // --------------------------------------------- order of posted frames

  /** The frames still waiting for the write loop. */
  function Waiting(tasks: seq<Task>): seq<seq<Byte>> {
    if tasks == [] then []
    else (match tasks[0] case SendTask(f) => [f] case ShutTask => []) + Waiting(tasks[1..])
  }

  lemma {:induction false} WaitingAppend(tasks: seq<Task>, t: Task)
    ensures Waiting(tasks + [t]) == Waiting(tasks) + Waiting([t])
  {
    if tasks == [] {
      assert tasks + [t] == [t];
    } else {
      WaitingAppend(tasks[1..], t);
      var all := tasks + [t];
      assert all[0] == tasks[0] && all[1..] == tasks[1..] + [t];
    }
  }

  /** Posting is first in, first out, and a refusal is for good. */
  ghost predicate InOrder(l: Link) {
    l.sent <= l.posted && (!Refuses(l.sender) ==> l.sent + Waiting(l.tasks) == l.posted)
  }

  lemma NextKeepsOrder(l: Link, e: Event)
    requires 4 <= l.h && InOrder(l) && !e.SendDirect?
    ensures InOrder(Next(l, e))
  {
    match e
    case Post(frame) =>
      WaitingAppend(l.tasks, SendTask(frame));
      Assoc(l.sent, Waiting(l.tasks), [frame]);
      assert Waiting([SendTask(frame)]) == [frame];
    case RunTask(writes) =>
      if l.tasks != [] && l.tasks[0].SendTask? && !Refuses(l.sender) {
        var frame := l.tasks[0].frame;
        Assoc(l.sent, [frame], Waiting(l.tasks[1..]));
        SendLoopKeepsBytes(l.sender.(outbuf := l.sender.outbuf + frame), writes);
      }
    case WriteReady(writes) => SendLoopKeepsBytes(l.sender, writes);
    case _ =>
  }

  lemma {:induction false} RunKeepsOrder(l: Link, es: seq<Event>)
    requires 4 <= l.h && InOrder(l) && forall e :: e in es ==> !e.SendDirect?
    ensures InOrder(Run(l, es))
    decreases |es|
  {
    if es != [] {
      NextKeepsOrder(l, es[0]);
      RunKeepsOrder(Next(l, es[0]), es[1..]);
    }
  }

  /** From `SendData` on one side to the handler on the other: the frames
      dispatched are a prefix of the frames posted, and while the sender accepts
      more, nothing posted has been dropped. */
  lemma PostedEndToEnd(h: nat, block: nat, es: seq<Event>)
    requires 4 <= h && forall e :: e in es ==> FrameEvent(h, e) && !e.SendDirect?
    ensures var l := Run(Fresh(h, block), es);
            && l.receiver.dispatched <= l.posted
            && (!Refuses(l.sender) && l.tasks == [] && l.sender.outbuf == [] && l.wire == [] && l.receiver.open ==>
                  l.receiver.dispatched == l.posted)
  {
    EndToEnd(h, block, es);
    RunKeepsOrder(Fresh(h, block), es);
  }

  /** A refusal is for good: from then on no frame is accepted. */
  lemma {:induction false} RefusedForGood(l: Link, es: seq<Event>)
    requires 4 <= l.h && Refuses(l.sender)
    ensures Run(l, es).posted == l.posted && Run(l, es).sent == l.sent && Refuses(Run(l, es).sender)
    decreases |es|
  {
    if es != [] {
      if es[0].WriteReady? { SendLoopKeepsBytes(l.sender, es[0].writes); }
      RefusedForGood(Next(l, es[0]), es[1..]);
    }
  }

  /** `DisAllowSend` and `Close` bring it about; until then every frame is accepted. */
  lemma AcceptedUntilRefused(l: Link, frame: seq<Byte>)
    requires 4 <= l.h
    ensures Refuses(Next(l, DisAllowSend).sender) && Refuses(Next(l, CloseSender).sender)
    ensures Next(l, Post(frame)).posted == if Refuses(l.sender) then l.posted else l.posted + [frame]
  {
  }

  // --------------------------------------------- everything can arrive

  /** Both ends are up. */
  ghost predicate Up(l: Link) {
    Inv(l) && InOrder(l) && !Refuses(l.sender) && l.receiver.open && l.receiver.block > 0
  }

  ghost predicate Posted(es: seq<Event>) {
    forall e :: e in es ==> !e.SendDirect? && !e.Post?
  }

  lemma {:induction false} RunJoin(l: Link, a: seq<Event>, b: seq<Event>)
    requires 4 <= l.h
    ensures Run(l, a + b) == Run(Run(l, a), b)
    decreases |a|
  {
    if a == [] {
      assert a + b == b;
    } else {
      assert (a + b)[0] == a[0] && (a + b)[1..] == a[1..] + b;
      RunJoin(Next(l, a[0]), a[1..], b);
    }
  }

  /** One step, then the rest. */
  lemma RunFirst(l: Link, e: Event, es: seq<Event>)
    requires 4 <= l.h
    ensures Run(l, [e] + es) == Run(Next(l, e), es)
  {
    assert ([e] + es)[1..] == es;
  }

  /** A queued frame enters the output buffer. */
  lemma TaskRuns(l: Link)
    requires Up(l) && l.tasks != []
    ensures var n := Next(l, RunTask([])); Up(n) && n.tasks == l.tasks[1..] && n.posted == l.posted
  {
    var frame := l.tasks[0].frame;
    assert l.tasks[0] in l.tasks;
    NextKeepsInv(l, RunTask([]));
    NextKeepsOrder(l, RunTask([]));
  }

  lemma {:induction false} TasksRun(l: Link) returns (es: seq<Event>)
    requires Up(l)
    ensures Posted(es) && var r := Run(l, es); Up(r) && r.tasks == [] && r.posted == l.posted
    decreases |l.tasks|
  {
    if l.tasks == [] {
      es := [];
    } else {
      TaskRuns(l);
      var rest := TasksRun(Next(l, RunTask([])));
      es := [RunTask([])] + rest;
      RunFirst(l, RunTask([]), rest);
    }
  }

  /** The whole output buffer goes out. */
  lemma BufferGoesOut(l: Link)
    requires Up(l)
    ensures var n := Next(l, WriteReady([Wrote(|l.sender.outbuf|)]));
            Up(n) && n.sender.outbuf == [] && n.tasks == l.tasks && n.posted == l.posted
  {
    var e := WriteReady([Wrote(|l.sender.outbuf|)]);
    NextKeepsInv(l, e);
    NextKeepsOrder(l, e);
    SendAll(l.sender);
  }

  lemma SendAll(s: Sender)
    requires s.allow
    ensures SendLoop(s, [Wrote(|s.outbuf|)]) == Sent(s.(outbuf := []), s.outbuf, true)
  {
    var writes, t := [Wrote(|s.outbuf|)], s.(outbuf := []);
    assert writes[1..] == [] && SendLoop(t, []) == Sent(t, [], true);
    if s.outbuf != [] {
      assert s.outbuf[|s.outbuf|..] == [] && s.outbuf[..|s.outbuf|] == s.outbuf && s.outbuf + [] == s.outbuf;
    }
  }

  lemma ReadOne(h: nat, r: Receiver, wire: seq<Byte>)
    requires 4 <= h && r.block > 0 && wire != []
    ensures var k := Min(r.block, |wire|);
            k > 0 && ReadEvent(h, r, wire, [Got(r.block)]) == Reading(Absorb(h, r, wire[..k]), wire[k..])
  {
    var results, k := [Got(r.block)], Min(r.block, |wire|);
    assert results[1..] == [];
    assert ReadEvent(h, Absorb(h, r, wire[..k]), wire[k..], []) == Reading(Absorb(h, r, wire[..k]), wire[k..]);
  }

  /** Part of what is on the wire is read. */
  lemma PieceIsRead(l: Link)
    requires Up(l) && l.wire != []
    ensures var n := Next(l, ReadReady([Got(l.receiver.block)]));
            Up(n) && |n.wire| < |l.wire| && n.sender == l.sender && n.tasks == l.tasks && n.posted == l.posted
  {
    var e := ReadReady([Got(l.receiver.block)]);
    NextKeepsInv(l, e);
    NextKeepsOrder(l, e);
    ReadOne(l.h, l.receiver, l.wire);
  }

  lemma {:induction false} WireIsRead(l: Link) returns (es: seq<Event>)
    requires Up(l)
    ensures Posted(es) && var r := Run(l, es);
            Up(r) && r.wire == [] && r.sender == l.sender && r.tasks == l.tasks && r.posted == l.posted
    decreases |l.wire|
  {
    if l.wire == [] {
      es := [];
    } else {
      PieceIsRead(l);
      var e := ReadReady([Got(l.receiver.block)]);
      var rest := WireIsRead(Next(l, e));
      es := [e] + rest;
      RunFirst(l, e, rest);
    }
  }

  lemma AllArrive(l: Link) returns (es: seq<Event>)
    requires Up(l)
    ensures Posted(es) && Run(l, es).receiver.dispatched == l.posted
  {
    var a := TasksRun(l);
    var l1 := Run(l, a);
    BufferGoesOut(l1);
    var e := WriteReady([Wrote(|l1.sender.outbuf|)]);
    var l2 := Next(l1, e);
    var b := WireIsRead(l2);
    var l3 := Run(l2, b);
    RunFirst(l1, e, b);
    es := a + ([e] + b);
    RunJoin(l, a, [e] + b);
    assert l3.sent + [] == l3.posted;
    FramesAll(l3.h, l3.receiver.dispatched, l3.receiver.inbuf, l3.sent);
  }

  lemma {:induction false} BlockPositive(l: Link, es: seq<Event>)
    requires 4 <= l.h && l.receiver.block > 0
    ensures Run(l, es).receiver.block > 0
    decreases |es|
  {
    if es != [] {
      if es[0].ReadReady? { ReadKeepsBlock(l.h, l.receiver, l.wire, es[0].results); }
      BlockPositive(Next(l, es[0]), es[1..]);
    }
  }

  lemma {:induction false} ReadKeepsBlock(h: nat, r: Receiver, wire: seq<Byte>, results: seq<ReadResult>)
    requires 4 <= h && r.block > 0
    ensures ReadEvent(h, r, wire, results).receiver.block > 0
    decreases |results|
  {
    if results != [] {
      match results[0]
      case ReadInterrupted => ReadKeepsBlock(h, r, wire, results[1..]);
      case Got(n) =>
        var k := Min(n, Min(r.block, |wire|));
        if k != 0 { ReadKeepsBlock(h, Absorb(h, r, wire[..k]), wire[k..], results[1..]); }
      case _ =>
    }
  }

  /** After every run, as long as both ends are up, a frame posted now can still arrive,
      right behind all those posted before: no step makes the link stuck. */
  lemma CanStillArrive(h: nat, block: nat, es: seq<Event>, frame: seq<Byte>) returns (more: seq<Event>)
    requires 4 <= h && block > 0 && IsFrame(h, frame)
    requires forall e :: e in es ==> FrameEvent(h, e) && !e.SendDirect?
    requires var l := Run(Fresh(h, block), es); !Refuses(l.sender) && l.receiver.open
    ensures Posted(more)
    ensures var l := Run(Fresh(h, block), es);
            Run(l, [Post(frame)] + more).receiver.dispatched == l.posted + [frame]
  {
    var l := Run(Fresh(h, block), es);
    RunKeepsInv(Fresh(h, block), es);
    RunKeepsOrder(Fresh(h, block), es);
    BlockPositive(Fresh(h, block), es);
    NextKeepsInv(l, Post(frame));
    NextKeepsOrder(l, Post(frame));
    more := AllArrive(Next(l, Post(frame)));
    RunFirst(l, Post(frame), more);
  }

  // ------------------------------------------------------- the code itself

  /** The part of `TcpSock` that moves bytes. */
  class TcpSock {
    const outbuf: FastBuffer
    const inbuf: FastBuffer
    var writeable: bool
    var allow: bool
    var closed: bool
    var block: nat

    ghost predicate Ok()
      reads this, outbuf, outbuf.inner, inbuf, inbuf.inner
    {
      outbuf.Ok() && inbuf.Ok() && outbuf != inbuf && outbuf.inner != inbuf.inner
    }

    ghost function AsSender(): Sender
      requires Ok()
      reads this, outbuf, outbuf.inner, inbuf, inbuf.inner
    {
      Sender(outbuf.Contents(), writeable, allow, closed)
    }

    constructor (blockSize: nat)
      ensures Ok() && fresh(outbuf) && fresh(inbuf) && fresh(outbuf.inner) && fresh(inbuf.inner)
      ensures AsSender() == Sender([], true, true, false) && inbuf.Contents() == [] && block == blockSize
    {
      outbuf := new FastBuffer();
      inbuf := new FastBuffer();
      writeable, allow, closed, block := true, true, false, blockSize;
    }

    method ShutDownWrite()
      requires Ok()
      modifies this`writeable, outbuf`readstart, outbuf`writestart
      ensures Ok() && AsSender() == ShutDown(old(AsSender()))
      ensures inbuf.Contents() == old(inbuf.Contents())
    {
      if closed {
        return;
      }
      writeable := false;
      outbuf.Clear();
    }

    /** One successful `write`: the kernel takes up to `n` bytes. */
    method WriteSome(n: nat) returns (data: seq<Byte>)
      requires Ok()
      modifies outbuf`readstart, outbuf`writestart
      ensures Ok() && inbuf.Contents() == old(inbuf.Contents())
      ensures var was := old(outbuf.Contents()); var k := Min(n, |was|);
              data == was[..k] && outbuf.Contents() == was[k..]
    {
      var k := Min(n, outbuf.writestart - outbuf.readstart);
      data := outbuf.Front(k);
      outbuf.PopFront(k);
    }

    /** `DoSend`; `written` is what the kernel took. */
    method DoSend(writes: seq<WriteResult>) returns (written: seq<Byte>, ok: bool)
      requires Ok()
      modifies this`writeable, this`allow, this`closed, inbuf, outbuf`readstart, outbuf`writestart
      ensures Ok() && inbuf.inner == old(inbuf.inner)
      ensures inbuf.Contents() == old(inbuf.Contents()) || (closed && inbuf.Contents() == [])
      ensures SendLoop(old(AsSender()), writes) == Sent(AsSender(), written, ok)
    {
      written := [];
      ghost var all := SendLoop(AsSender(), writes);
      ghost var left, later := writes, all;
      var i := 0;
      while i < |writes|
        invariant 0 <= i <= |writes| && Ok()
        invariant inbuf.Contents() == old(inbuf.Contents()) && inbuf.inner == old(inbuf.inner)
        invariant left == writes[i..] && later == SendLoop(AsSender(), left)
        invariant all == later.(written := written + later.written)
      {
        ghost var here := AsSender();
        left := writes[i + 1..];
        assert writes[i..][1..] == left;
        match writes[i] {
          case WriteAgain => return written, true;
          case WriteInterrupted =>
          case WriteFailed => Close(); return written, false;
          case Wrote(n) =>
            var data := WriteSome(n);
            if data == [] {
              return written, true;
            }
            ghost var t := AsSender();
            assert t == here.(outbuf := here.outbuf[|data|..]);
            if outbuf.readstart == outbuf.writestart && !allow {
              written := written + data;
              ShutDownWrite();
              return written, false;
            }
            Assoc(written, data, SendLoop(t, left).written);
            written := written + data;
        }
        later := SendLoop(AsSender(), left);
        i := i + 1;
      }
      ok := true;
    }

    method SendDataInLoop(data: seq<Byte>, writes: seq<WriteResult>) returns (written: seq<Byte>, ok: bool)
      requires Ok()
      modifies this`writeable, this`allow, this`closed, inbuf, outbuf, outbuf.inner
      ensures Ok() && (inbuf.Contents() == old(inbuf.Contents()) || (closed && inbuf.Contents() == []))
      ensures SendInLoop(old(AsSender()), data, writes) == Sent(AsSender(), written, ok)
    {
      if closed || !writeable || !allow {
        return [], false;
      }
      outbuf.PushBack(data);
      written, ok := DoSend(writes);
    }

    /** The read branch of `HandleEvent` with a protocol whose heads are `h` bytes.
        `wire` is what the kernel holds; `later` is what it still holds after. */
    method HandleRead(h: nat, wire: seq<Byte>, results: seq<ReadResult>) returns (frames: seq<seq<Byte>>, later: seq<Byte>)
      requires Ok() && 4 <= h && !closed
      modifies this`closed, this`writeable, this`allow, this`block, inbuf, inbuf.inner
      ensures Ok() && outbuf.Contents() == old(outbuf.Contents())
      ensures ReadEvent(h, Receiver(old(inbuf.Contents()), old(block), [], true), wire, results)
              == Reading(Receiver(inbuf.Contents(), block, frames, !closed), later)
    {
      frames, later := [], wire;
      ghost var all := ReadEvent(h, Receiver(inbuf.Contents(), block, [], true), wire, results);
      ghost var left := results;
      var i := 0;
      while i < |results|
        invariant 0 <= i <= |results| && Ok() && !closed
        invariant outbuf.Contents() == old(outbuf.Contents())
        invariant inbuf.inner == old(inbuf.inner) || fresh(inbuf.inner)
        invariant left == results[i..]
        invariant all == ReadEvent(h, Receiver(inbuf.Contents(), block, frames, true), later, left)
      {
        left := results[i + 1..];
        assert results[i..][1..] == left;
        match results[i] {
          case ReadAgain => return;
          case ReadInterrupted =>
          case ReadEof => Close(); return;
          case ReadFailed => Close(); return;
          case Got(n) =>
            var k := Min(n, Min(block, |later|));
            if k == 0 {
              return;
            }
            var more := ReadSome(h, later[..k], frames);
            frames, later := frames + more, later[k..];
        }
        i := i + 1;
      }
    }

    /** One successful `read` of `data`, then the protocol's read loop. */
    method ReadSome(h: nat, data: seq<Byte>, ghost frames: seq<seq<Byte>>) returns (more: seq<seq<Byte>>)
      requires Ok() && 4 <= h && |data| <= block
      modifies this`block, inbuf, inbuf.inner
      ensures Ok() && outbuf.Contents() == old(outbuf.Contents())
      ensures inbuf.inner == old(inbuf.inner) || fresh(inbuf.inner)
      ensures Receiver(inbuf.Contents(), block, frames + more, true)
              == Absorb(h, Receiver(old(inbuf.Contents()), old(block), frames, true), data)
    {
      inbuf.ReadInto(block, data);
      if |data| == block {
        block := block * 2;
      }
      var live := inbuf.Front(inbuf.writestart - inbuf.readstart);
      assert live == old(inbuf.Contents()) + data;
      var used;
      more, used := ReadLoop(h, live);
      inbuf.PopFront(used);
    }

    method Close()
      requires Ok()
      modifies this`closed, this`writeable, this`allow, inbuf
      ensures Ok() && closed && !writeable && !allow && inbuf.inner == old(inbuf.inner)
      ensures inbuf.Contents() == [] && outbuf.Contents() == old(outbuf.Contents())
    {
      closed, writeable, allow := true, false, false;
      inbuf.Clear();
    }
  }
}
