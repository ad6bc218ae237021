/** The receiving side of a connection between clients
    (Core/NetMsgBusReceiverMgr.hpp): frames are cut from the stream, and none is
    acted on before one of them has named an allowed sender. */
module ReceiverGate {
  import opened Bytes
  import opened Framing
  import Codec = ContentCodec

  type Name = seq<Byte>

  /** A request handed to the thread pool. Only non-zero session ids are. */
  datatype Request = Request(sid: nat, content: seq<Byte>)

  /** `CheckMsgSender`: the sender that a frame names, if the filter lets it pass. */
  function Sender(allowed: Name -> bool, f: seq<Byte>): (r: Codec.Found) {
    if |f| < REQUEST_HEAD then Codec.Missing
    else
      var s := Codec.GetMsgSender(RequestData(f));
      if s.Found? && allowed(s.value) then s else Codec.Missing
  }

  function Wanted(f: seq<Byte>): seq<Request> {
    if |f| < REQUEST_HEAD || RequestSid(f) == 0 then [] else [Request(RequestSid(f), RequestData(f))]
  }

  /** `known` is the connection's entry in `m_client_senders`. */
  datatype Gated = Gated(known: Codec.Found, requests: seq<Request>)

  function Learned(allowed: Name -> bool, known: Codec.Found, f: seq<Byte>): Codec.Found {
    if known.Found? then known else Sender(allowed, f)
  }

  function Gate(allowed: Name -> bool, known: Codec.Found, frames: seq<seq<Byte>>): Gated
    decreases |frames|
  {
    if frames == [] then Gated(known, [])
    else
      var now := Learned(allowed, known, frames[0]);
      var rest := Gate(allowed, now, frames[1..]);
      Gated(rest.known, (if now.Found? then Wanted(frames[0]) else []) + rest.requests)
  }

  lemma {:induction false} GateAppend(allowed: Name -> bool, known: Codec.Found, a: seq<seq<Byte>>, b: seq<seq<Byte>>)
    ensures var g := Gate(allowed, known, a); var h := Gate(allowed, g.known, b);
            Gate(allowed, known, a + b) == Gated(h.known, g.requests + h.requests)
    decreases |a|
  {
    if a == [] {
      assert a + b == b;
      assert [] + Gate(allowed, known, b).requests == Gate(allowed, known, b).requests;
    } else {
      var now := Learned(allowed, known, a[0]);
      assert (a + b)[0] == a[0] && (a + b)[1..] == a[1..] + b;
      GateAppend(allowed, now, a[1..], b);
      var g := Gate(allowed, now, a[1..]);
      Assoc(if now.Found? then Wanted(a[0]) else [], g.requests, Gate(allowed, g.known, b).requests);
    }
  }

  // ------------------------------------------------------------ what the gate means

  /** The requests of a list of frames, without any gate. */
  function AllWanted(frames: seq<seq<Byte>>): seq<Request> {
    if frames == [] then [] else Wanted(frames[0]) + AllWanted(frames[1..])
  }

  /** `k` is the first frame that names an allowed sender. */
  predicate FirstAllowed(allowed: Name -> bool, frames: seq<seq<Byte>>, k: nat) {
    && k < |frames| && Sender(allowed, frames[k]).Found?
    && forall i :: 0 <= i < k ==> !Sender(allowed, frames[i]).Found?
  }

  lemma {:induction false} OpenGate(allowed: Name -> bool, known: Codec.Found, frames: seq<seq<Byte>>)
    requires known.Found?
    ensures Gate(allowed, known, frames) == Gated(known, AllWanted(frames))
  {
    if frames != [] {
      OpenGate(allowed, known, frames[1..]);
    }
  }

  /** On a new connection exactly the frames from the first allowed sender on are
      acted on, that one included, in order; before it, none. */
  lemma {:induction false} GateMeans(allowed: Name -> bool, frames: seq<seq<Byte>>)
    ensures var g := Gate(allowed, Codec.Missing, frames);
            && (forall k: nat :: FirstAllowed(allowed, frames, k) ==>
                  g == Gated(Sender(allowed, frames[k]), AllWanted(frames[k..])))
            && ((forall i :: 0 <= i < |frames| ==> !Sender(allowed, frames[i]).Found?) ==> g == Gated(Codec.Missing, []))
    decreases |frames|
  {
    if frames != [] {
      var now := Sender(allowed, frames[0]);
      if now.Found? {
        OpenGate(allowed, now, frames[1..]);
        assert forall k: nat :: FirstAllowed(allowed, frames, k) ==> k == 0;
        assert frames[0..] == frames;
      } else {
        GateMeans(allowed, frames[1..]);
        forall k: nat | FirstAllowed(allowed, frames, k)
          ensures k > 0 && FirstAllowed(allowed, frames[1..], k - 1) && frames[1..][k - 1..] == frames[k..]
        {
          assert k > 0;
          assert frames[1..][k - 1] == frames[k];
          forall i | 0 <= i < k - 1 ensures !Sender(allowed, frames[1..][i]).Found? {
            assert frames[1..][i] == frames[i + 1];
          }
        }
        forall i | 0 <= i < |frames| - 1 ensures frames[1..][i] == frames[i + 1] {
        }
      }
    }
  }

  // ------------------------------------------------------------ whole runs

  /** A connection: unread bytes, its known sender, and what was acted on so far. */
  datatype Conn = Conn(buffer: seq<Byte>, known: Codec.Found, requests: seq<Request>)

  datatype Event = Arrive(fd: int, bytes: seq<Byte>) | Close(fd: int)

  type Conns = map<int, Conn>

  function ConnOf(cs: Conns, fd: int): Conn {
    if fd in cs then cs[fd] else Conn([], Codec.Missing, [])
  }

  function ReadOn(allowed: Name -> bool, c: Conn, bytes: seq<Byte>): Conn {
    var p := Parse(REQUEST_HEAD, c.buffer + bytes);
    var g := Gate(allowed, c.known, p.frames);
    Conn(p.rest, g.known, c.requests + g.requests)
  }

  function Next(allowed: Name -> bool, cs: Conns, e: Event): Conns {
    match e
    case Arrive(fd, bytes) => cs[fd := ReadOn(allowed, ConnOf(cs, fd), bytes)]
    case Close(fd) => cs - {fd}
  }

  function Run(allowed: Name -> bool, es: seq<Event>): Conns {
    if es == [] then map[] else Next(allowed, Run(allowed, es[..|es| - 1]), es[|es| - 1])
  }

  /** The bytes that arrived on `fd` since it was last closed. */
  function Since(es: seq<Event>, fd: int): seq<Byte> {
    if es == [] then []
    else
      var e, before := es[|es| - 1], Since(es[..|es| - 1], fd);
      if e.fd != fd then before else if e.Close? then [] else before + e.bytes
  }

  /** One more read continues the one-shot parse and the gate over it. */
  lemma ReadOnContinues(allowed: Name -> bool, c: Conn, all: seq<Byte>, bytes: seq<Byte>)
    requires var p := Parse(REQUEST_HEAD, all); var g := Gate(allowed, Codec.Missing, p.frames);
             c == Conn(p.rest, g.known, g.requests)
    ensures var p := Parse(REQUEST_HEAD, all + bytes); var g := Gate(allowed, Codec.Missing, p.frames);
            ReadOn(allowed, c, bytes) == Conn(p.rest, g.known, g.requests)
  {
    var p := Parse(REQUEST_HEAD, all);
    ParseSplit(REQUEST_HEAD, all, bytes);
    GateAppend(allowed, Codec.Missing, p.frames, Parse(REQUEST_HEAD, p.rest + bytes).frames);
  }

  /** In every run, whatever the splits and interleavings: what was acted on for a
      connection is what the gate lets through of a one-shot parse of all the bytes
      that arrived since it was last closed. */
  lemma {:induction false} GateOverRuns(allowed: Name -> bool, es: seq<Event>, fd: int)
    ensures var p := Parse(REQUEST_HEAD, Since(es, fd)); var g := Gate(allowed, Codec.Missing, p.frames);
            ConnOf(Run(allowed, es), fd) == Conn(p.rest, g.known, g.requests)
    decreases |es|
  {
    if es == [] {
      assert Parse(REQUEST_HEAD, []) == Parsed([], []);
    } else {
      var before, e := es[..|es| - 1], es[|es| - 1];
      GateOverRuns(allowed, before, fd);
      if e.fd == fd && e.Arrive? {
        ReadOnContinues(allowed, ConnOf(Run(allowed, before), fd), Since(before, fd), e.bytes);
      } else if e.fd == fd {
        assert Parse(REQUEST_HEAD, []) == Parsed([], []);
      }
    }
  }

  /** So a request is acted on only if a frame since the last close, at the latest its
      own, named an allowed sender. */
  lemma ActedOnIsAllowed(allowed: Name -> bool, es: seq<Event>, fd: int)
    requires ConnOf(Run(allowed, es), fd).requests != []
    ensures exists f :: f in Parse(REQUEST_HEAD, Since(es, fd)).frames && Sender(allowed, f).Found?
  {
    var frames := Parse(REQUEST_HEAD, Since(es, fd)).frames;
    GateOverRuns(allowed, es, fd);
    GateMeans(allowed, frames);
    if forall i :: 0 <= i < |frames| ==> !Sender(allowed, frames[i]).Found? {
      assert false;
    }
    var i :| 0 <= i < |frames| && Sender(allowed, frames[i]).Found?;
    assert frames[i] in frames;
  }

  // ------------------------------------------------------------ what clients send

  /** A message as a client sends it to another. */
  datatype Message = Message(sync: bool, sid: nat, msgid: seq<Byte>, param: seq<Byte>, sender: Name)

  predicate Sendable(m: Message) {
    m.sid < U32 && |m.sender| < 256 && Codec.ContentLength(m.msgid, m.param, m.sender) < U32
  }

  function ContentOf(m: Message): seq<Byte> { Codec.Content(m.msgid, m.param, m.sender) }

  function FrameOf(m: Message): seq<Byte> { RequestFrame(m.sync, m.sid, ContentOf(m)) }

  function Frames(ms: seq<Message>): seq<seq<Byte>> {
    if ms == [] then [] else [FrameOf(ms[0])] + Frames(ms[1..])
  }

  /** The messages that ask for an answer or a future, the others being greetings. */
  function Numbered(ms: seq<Message>): seq<Request> {
    if ms == [] then []
    else (if ms[0].sid != 0 then [Request(ms[0].sid, ContentOf(ms[0]))] else []) + Numbered(ms[1..])
  }

  lemma FrameMeans(allowed: Name -> bool, m: Message)
    requires Sendable(m)
    ensures IsFrame(REQUEST_HEAD, FrameOf(m))
    ensures Wanted(FrameOf(m)) == if m.sid != 0 then [Request(m.sid, ContentOf(m))] else []
    ensures Sender(allowed, FrameOf(m)) == if allowed(m.sender) then Codec.Found(m.sender) else Codec.Missing
  {
    ContentFits(m);
    RequestRoundTrip(m.sync, m.sid, ContentOf(m));
    SenderOf(allowed, FrameOf(m), ContentOf(m), m.sender);
    WantedOf(FrameOf(m), m.sid, ContentOf(m));
  }

  lemma ContentFits(m: Message)
    requires Sendable(m)
    ensures |ContentOf(m)| < U32 && Codec.GetMsgSender(ContentOf(m)) == Codec.Found(m.sender) && m.sid % U32 == m.sid
  {
    Codec.OffsetIs(m.msgid, m.param, m.sender);
    Codec.SenderRoundTrip(m.msgid, m.param, m.sender);
  }

  lemma SenderOf(allowed: Name -> bool, f: seq<Byte>, content: seq<Byte>, sender: Name)
    requires |f| >= REQUEST_HEAD && RequestData(f) == content && Codec.GetMsgSender(content) == Codec.Found(sender)
    ensures Sender(allowed, f) == if allowed(sender) then Codec.Found(sender) else Codec.Missing
  {
  }

  lemma WantedOf(f: seq<Byte>, sid: nat, content: seq<Byte>)
    requires |f| >= REQUEST_HEAD && RequestData(f) == content && RequestSid(f) == sid
    ensures Wanted(f) == if sid != 0 then [Request(sid, content)] else []
  {
  }

  lemma {:induction false} FramesMean(allowed: Name -> bool, ms: seq<Message>)
    requires forall m :: m in ms ==> Sendable(m)
    ensures |Frames(ms)| == |ms| && AllFrames(REQUEST_HEAD, Frames(ms)) && AllWanted(Frames(ms)) == Numbered(ms)
    ensures forall i :: 0 <= i < |ms| ==>
              Sender(allowed, Frames(ms)[i]) == (if allowed(ms[i].sender) then Codec.Found(ms[i].sender) else Codec.Missing)
  {
    if ms != [] {
      assert ms[0] in ms;
      FrameMeans(allowed, ms[0]);
      FramesMean(allowed, ms[1..]);
      assert Frames(ms)[1..] == Frames(ms[1..]);
    }
  }

  lemma {:induction false} FramesFrom(ms: seq<Message>, k: nat)
    requires k <= |ms|
    ensures |Frames(ms)| == |ms| && Frames(ms)[k..] == Frames(ms[k..])
  {
    if k == 0 {
      FramesCount(ms);
      assert ms[0..] == ms;
    } else {
      FramesFrom(ms[1..], k - 1);
      assert Frames(ms)[k..] == Frames(ms[1..])[k - 1..] && ms[1..][k - 1..] == ms[k..];
    }
  }

  lemma {:induction false} FramesCount(ms: seq<Message>)
    ensures |Frames(ms)| == |ms|
  {
    if ms != [] {
      FramesCount(ms[1..]);
    }
  }

  lemma ParseAll(frames: seq<seq<Byte>>)
    requires AllFrames(REQUEST_HEAD, frames)
    ensures Parse(REQUEST_HEAD, Flat(frames)) == Parsed(frames, [])
  {
    ParseFlat(REQUEST_HEAD, frames, []);
    assert Flat(frames) + [] == Flat(frames) && frames + [] == frames;
    assert Parse(REQUEST_HEAD, []) == Parsed([], []);
  }

  /** In every run, however the bytes of a connection were split: of the messages that a
      client sent on it, those from the first with an allowed sender on are acted on,
      with their numbers and contents, and no other. */
  lemma ClientsHeard(allowed: Name -> bool, es: seq<Event>, fd: int, ms: seq<Message>, k: nat)
    requires forall m :: m in ms ==> Sendable(m)
    requires Since(es, fd) == Flat(Frames(ms))
    requires k <= |ms| && (forall i :: 0 <= i < k ==> !allowed(ms[i].sender)) && (k < |ms| ==> allowed(ms[k].sender))
    ensures ConnOf(Run(allowed, es), fd)
            == Conn([], if k < |ms| then Codec.Found(ms[k].sender) else Codec.Missing, Numbered(ms[k..]))
  {
    var frames := Frames(ms);
    FramesMean(allowed, ms);
    ParseAll(frames);
    GateOverRuns(allowed, es, fd);
    GateMeans(allowed, frames);
    FramesFrom(ms, k);
    if k < |ms| {
      assert forall m :: m in ms[k..] ==> m in ms;
      FramesMean(allowed, ms[k..]);
      assert FirstAllowed(allowed, frames, k);
    }
  }

  // ------------------------------------------------------------ the code

  class ReceiverMgr {
    var senders: map<int, Name>
    var queue: seq<Request>

    constructor ()
      ensures senders == map[] && queue == []
    {
      senders, queue := map[], [];
    }

    /** `receiver_onRead`: the read loop, with the gate inside. */
    method OnRead(allowed: Name -> bool, fd: int, data: seq<Byte>) returns (readed: nat)
      modifies this
      ensures readed <= |data|
      ensures var r := Served(allowed, Known(old(senders), fd), data);
              && data[readed..] == r.buffer && queue == old(queue) + r.requests
              && Known(senders, fd) == r.known && senders == Noted(old(senders), fd, r.known)
    {
      readed := 0;
      var size := |data|;
      ghost var tail := data;
      ghost var all := Served(allowed, Known(senders, fd), data);
      ghost var todo := all;
      while true
        invariant 0 <= size && readed + size == |data| && tail == data[readed..]
        invariant todo == Served(allowed, Known(senders, fd), tail)
        invariant todo.buffer == all.buffer && todo.known == all.known && queue + todo.requests == old(queue) + all.requests
        invariant senders == Noted(old(senders), fd, Known(senders, fd))
        decreases size
      {
        var needlen := REQUEST_HEAD;
        if size < needlen {
          NoFrame(allowed, Known(senders, fd), tail);
          return;
        }
        HeadAt(REQUEST_HEAD, data, readed);
        needlen := needlen + ReadBe32(data[readed + 5..readed + 9]);
        if size < needlen {
          NoFrame(allowed, Known(senders, fd), tail);
          return;
        }
        FrameStep(allowed, Known(senders, fd), tail, needlen, queue);
        HandleFrame(allowed, fd, data[readed..readed + needlen]);
        assert tail[..needlen] == data[readed..readed + needlen] && tail[needlen..] == data[readed + needlen..];
        tail := tail[needlen..];
        todo := Served(allowed, Known(senders, fd), tail);
        size := size - needlen;
        readed := readed + needlen;
      }
    }

    method HandleFrame(allowed: Name -> bool, fd: int, frame: seq<Byte>)
      requires |frame| >= REQUEST_HEAD
      modifies this
      ensures Known(senders, fd) == Learned(allowed, Known(old(senders), fd), frame)
      ensures senders == Noted(old(senders), fd, Known(senders, fd))
      ensures queue == old(queue) + if Known(senders, fd).Found? then Wanted(frame) else []
    {
      var sync_sid, msgcontent := RequestSid(frame), RequestData(frame);
      if fd !in senders {
        var sender := Codec.GetMsgSender(msgcontent);
        if !sender.Found? || !allowed(sender.value) {
          return;
        }
        senders := senders[fd := sender.value];
      }
      if sync_sid != 0 {
        queue := queue + [Request(sync_sid, msgcontent)];
      }
    }

    method OnClose(fd: int)
      modifies this
      ensures Known(senders, fd) == Codec.Missing && queue == old(queue)
      ensures forall d :: d != fd ==> Known(senders, d) == Known(old(senders), d)
    {
      senders := senders - {fd};
    }
  }

  /** The connection's entry in `m_client_senders`. */
  function Known(senders: map<int, Name>, fd: int): Codec.Found {
    if fd in senders then Codec.Found(senders[fd]) else Codec.Missing
  }

  function Noted(senders: map<int, Name>, fd: int, known: Codec.Found): map<int, Name> {
    if known.Found? then senders[fd := known.value] else senders
  }

  /** Parsing and the gate together: what one call of `receiver_onRead` does. */
  function Served(allowed: Name -> bool, known: Codec.Found, data: seq<Byte>): Conn {
    ReadOn(allowed, Conn([], known, []), data)
  }

  lemma ServedIs(allowed: Name -> bool, known: Codec.Found, data: seq<Byte>)
    ensures var p := Parse(REQUEST_HEAD, data); var g := Gate(allowed, known, p.frames);
            Served(allowed, known, data) == Conn(p.rest, g.known, g.requests)
  {
    assert [] + data == data;
  }

  lemma NoFrame(allowed: Name -> bool, known: Codec.Found, tail: seq<Byte>)
    requires !HasFrame(REQUEST_HEAD, tail)
    ensures Served(allowed, known, tail) == Conn(tail, known, [])
  {
    ServedIs(allowed, known, tail);
  }

  /** One frame through the gate, in front of the others. */
  lemma FrameStep(allowed: Name -> bool, known: Codec.Found, tail: seq<Byte>, n: nat, queue: seq<Request>)
    requires HasFrame(REQUEST_HEAD, tail) && n == REQUEST_HEAD + BodyLen(REQUEST_HEAD, tail)
    ensures var f := tail[..n]; var now := Learned(allowed, known, f);
            var all := Served(allowed, known, tail); var later := Served(allowed, now, tail[n..]);
            && all.buffer == later.buffer && all.known == later.known
            && queue + all.requests == (queue + (if now.Found? then Wanted(f) else [])) + later.requests
  {
    var f := tail[..n];
    TakeFrame(REQUEST_HEAD, tail);
    ParseFrame(REQUEST_HEAD, f, tail[n..]);
    var rest := Parse(REQUEST_HEAD, tail[n..]).frames;
    assert ([f] + rest)[1..] == rest;
    var now := Learned(allowed, known, f);
    ServedIs(allowed, known, tail);
    ServedIs(allowed, now, tail[n..]);
    Assoc(queue, if now.Found? then Wanted(f) else [], Gate(allowed, now, rest).requests);
  }
}
