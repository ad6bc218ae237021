/** Framing of the three byte-stream protocols of the bus.

    A frame is a fixed-size head whose last four bytes are the big-endian length
    of the body that follows: 9 bytes (sync flag, session id, length) from a
    client to a receiver, 8 bytes (session id, length) back, 16 bytes
    (`MsgBusPackHead`) between a client and the server. */
module Framing {
  import opened Bytes

  const REQUEST_HEAD: nat := 9
  const RESPONSE_HEAD: nat := 8
  const PACKET_HEAD: nat := 16

  function BodyLen(h: nat, s: seq<Byte>): (n: nat)
    requires 4 <= h <= |s|
    ensures n < U32
  {
    ReadBe32(s[h - 4..h])
  }

  predicate IsFrame(h: nat, f: seq<Byte>) {
    4 <= h <= |f| && |f| == h + BodyLen(h, f)
  }

  predicate AllFrames(h: nat, fs: seq<seq<Byte>>) {
    forall f :: f in fs ==> IsFrame(h, f)
  }

  function Flat(fs: seq<seq<Byte>>): seq<Byte> {
    if fs == [] then [] else fs[0] + Flat(fs[1..])
  }

  /** `s` starts with a whole frame. */
  predicate HasFrame(h: nat, s: seq<Byte>)
    requires 4 <= h
  {
    h <= |s| && h + BodyLen(h, s) <= |s|
  }

  datatype Parsed = Parsed(frames: seq<seq<Byte>>, rest: seq<Byte>)

  /** The one-shot parser: all the whole frames at the front of `s`. */
  function Parse(h: nat, s: seq<Byte>): (p: Parsed)
    requires 4 <= h
    decreases |s|
  {
    if !HasFrame(h, s) then Parsed([], s)
    else
      var n := h + BodyLen(h, s);
      var p := Parse(h, s[n..]);
      Parsed([s[..n]] + p.frames, p.rest)
  }

  /** Every parsed piece is a frame and the remainder holds no further one. */
  lemma {:induction false} ParseShape(h: nat, s: seq<Byte>)
    requires 4 <= h
    ensures AllFrames(h, Parse(h, s).frames) && !HasFrame(h, Parse(h, s).rest)
    decreases |s|
  {
    if HasFrame(h, s) {
      var n := h + BodyLen(h, s);
      assert s[..n][h - 4..h] == s[h - 4..h];
      ParseShape(h, s[n..]);
    }
  }

  lemma {:induction false} FlatAppend(a: seq<seq<Byte>>, b: seq<seq<Byte>>)
    ensures Flat(a + b) == Flat(a) + Flat(b)
  {
    if a == [] {
      assert a + b == b;
    } else {
      FlatAppend(a[1..], b);
      var c := a + b;
      assert c[1..] == a[1..] + b && c[0] == a[0];
      Assoc(a[0], Flat(a[1..]), Flat(b));
    }
  }

  lemma FlatCons(f: seq<Byte>, fs: seq<seq<Byte>>)
    ensures Flat([f] + fs) == f + Flat(fs)
  {
    assert ([f] + fs)[1..] == fs;
  }

  /** Parsing loses and reorders nothing. */
  lemma {:induction false} ParseKeepsBytes(h: nat, s: seq<Byte>)
    requires 4 <= h
    ensures Flat(Parse(h, s).frames) + Parse(h, s).rest == s
    decreases |s|
  {
    if HasFrame(h, s) {
      var n := h + BodyLen(h, s);
      ParseKeepsBytes(h, s[n..]);
      var p := Parse(h, s[n..]);
      FlatCons(s[..n], p.frames);
      Assoc(s[..n], Flat(p.frames), p.rest);
      assert s == s[..n] + s[n..];
    }
  }

  /** A whole frame in front is parsed off unchanged. */
  lemma ParseFrame(h: nat, f: seq<Byte>, s: seq<Byte>)
    requires IsFrame(h, f)
    ensures Parse(h, f + s) == Parsed([f] + Parse(h, s).frames, Parse(h, s).rest)
  {
    assert (f + s)[h - 4..h] == f[h - 4..h];
    assert (f + s)[..|f|] == f && (f + s)[|f|..] == s;
  }

  lemma TakeFrame(h: nat, s: seq<Byte>)
    requires 4 <= h && HasFrame(h, s)
    ensures var n := h + BodyLen(h, s); IsFrame(h, s[..n]) && s == s[..n] + s[n..]
  {
    var n := h + BodyLen(h, s);
    assert s[..n][h - 4..h] == s[h - 4..h];
  }

  /** However a stream is split, parsing the first part, keeping the remainder
      and parsing again with the second part gives what one parse of the whole
      would. */
  lemma {:induction false} ParseSplit(h: nat, a: seq<Byte>, b: seq<Byte>)
    requires 4 <= h
    ensures var p := Parse(h, a); var q := Parse(h, p.rest + b);
            Parse(h, a + b) == Parsed(p.frames + q.frames, q.rest)
    decreases |a|
  {
    if HasFrame(h, a) {
      var n := h + BodyLen(h, a);
      var f, t := a[..n], a[n..];
      TakeFrame(h, a);
      ParseSplit(h, t, b);
      Assoc(f, t, b);
      ParseFrame(h, f, t + b);
      var p := Parse(h, t);
      Assoc([f], p.frames, Parse(h, p.rest + b).frames);
    }
  }

  /** The parser inverts concatenation of frames. */
  lemma {:induction false} ParseFlat(h: nat, fs: seq<seq<Byte>>, s: seq<Byte>)
    requires 4 <= h && AllFrames(h, fs)
    ensures Parse(h, Flat(fs) + s) == Parsed(fs + Parse(h, s).frames, Parse(h, s).rest)
  {
    if fs == [] {
      assert Flat(fs) + s == s;
    } else {
      ParseFlat(h, fs[1..], s);
      Assoc(fs[0], Flat(fs[1..]), s);
      ParseFrame(h, fs[0], Flat(fs[1..]) + s);
      Assoc([fs[0]], fs[1..], Parse(h, s).frames);
      assert fs == [fs[0]] + fs[1..];
    }
  }

  /** Frames are self-delimiting: if the bytes of `got` followed by a remainder
      and more bytes are the bytes of `sent`, then `got` is a prefix of `sent`. */
  lemma FramesPrefix(h: nat, got: seq<seq<Byte>>, more: seq<Byte>, sent: seq<seq<Byte>>)
    requires 4 <= h && AllFrames(h, got) && AllFrames(h, sent)
    requires Flat(got) + more == Flat(sent)
    ensures got <= sent && more == Flat(sent[|got|..])
  {
    ParseFlat(h, got, more);
    ParseFlat(h, sent, []);
    assert Flat(sent) + [] == Flat(sent);
    assert got + Parse(h, more).frames == sent;
    FlatAppend(got, sent[|got|..]);
    assert got + sent[|got|..] == sent;
    assert more == (Flat(got) + more)[|Flat(got)|..];
  }

  /** If moreover the remainder holds no whole frame, everything has arrived. */
  lemma FramesAll(h: nat, got: seq<seq<Byte>>, rest: seq<Byte>, sent: seq<seq<Byte>>)
    requires 4 <= h && AllFrames(h, got) && AllFrames(h, sent)
    requires Flat(got) + rest == Flat(sent) && !HasFrame(h, rest)
    ensures got == sent && rest == []
  {
    FramesPrefix(h, got, rest, sent);
    var left := sent[|got|..];
    if left != [] {
      ParseFrame(h, left[0], Flat(left[1..]));
    }
  }

  /** The head at position `at`, seen from the whole buffer. */
  lemma HeadAt(h: nat, data: seq<Byte>, at: nat)
    requires 4 <= h && at + h <= |data|
    ensures BodyLen(h, data[at..]) == ReadBe32(data[at + h - 4..at + h])
  {
    assert data[at..][h - 4..h] == data[at + h - 4..at + h];
  }

  /** One frame taken at position `at` by a loop that already has `frames`. */
  lemma TakeAt(h: nat, data: seq<Byte>, at: nat, n: nat, frames: seq<seq<Byte>>)
    requires 4 <= h && at + h <= |data| && HasFrame(h, data[at..])
    requires n == h + BodyLen(h, data[at..])
    ensures var p := Parse(h, data[at..]); var q := Parse(h, data[at + n..]);
            frames + p.frames == (frames + [data[at..at + n]]) + q.frames && p.rest == q.rest
  {
    assert data[at..][..n] == data[at..at + n] && data[at..][n..] == data[at + n..];
    Assoc(frames, [data[at..at + n]], Parse(h, data[at + n..]).frames);
  }

  /** The read loop that `receiver_onRead`, `Req2Receiver_onRead`,
      `ServerRspProcess` and `server_onRead` share: walk the buffer with a moving
      position and a remaining size, hand every whole frame on, and report how
      many bytes were used. */
  method ReadLoop(h: nat, data: seq<Byte>) returns (frames: seq<seq<Byte>>, readed: nat)
    requires 4 <= h
    ensures readed <= |data|
    ensures Parse(h, data) == Parsed(frames, data[readed..])
  {
    frames, readed := [], 0;
    var size := |data|;
    ghost var all := Parse(h, data);
    ghost var tail, later := data, all;
    while true
      invariant 0 <= size && readed + size == |data|
      invariant tail == data[readed..] && later == Parse(h, tail)
      invariant frames + later.frames == all.frames && later.rest == all.rest
      decreases size
    {
      var needlen := h;
      if size < needlen {
        return;
      }
      var pdata := readed + h;
      HeadAt(h, data, readed);
      needlen := needlen + ReadBe32(data[pdata - 4..pdata]);
      if size < needlen {
        return;
      }
      TakeAt(h, data, readed, needlen, frames);
      tail := data[readed + needlen..];
      later := Parse(h, tail);
      frames := frames + [data[readed..readed + needlen]];
      size := size - needlen;
      readed := readed + needlen;
    }
  }

  /** `WriteTaskDataToReceiver`: flag, session id and length in front of the data. */
  function RequestFrame(sync: bool, sid: nat, data: seq<Byte>): (f: seq<Byte>)
  {
    [if sync then 1 else 0] + Be32(sid) + Be32(|data|) + data
  }

  /** `NetMsgBusRspSendMsg`: session id and length in front of the result. */
  function ResponseFrame(sid: nat, data: seq<Byte>): (f: seq<Byte>)
  {
    Be32(sid) + Be32(|data|) + data
  }

  function RequestSync(f: seq<Byte>): Byte requires |f| >= REQUEST_HEAD { f[0] }
  function RequestSid(f: seq<Byte>): nat requires |f| >= REQUEST_HEAD { ReadBe32(f[1..5]) }
  function RequestData(f: seq<Byte>): seq<Byte> requires |f| >= REQUEST_HEAD { f[REQUEST_HEAD..] }
  function ResponseSid(f: seq<Byte>): nat requires |f| >= RESPONSE_HEAD { ReadBe32(f[0..4]) }
  function ResponseData(f: seq<Byte>): seq<Byte> requires |f| >= RESPONSE_HEAD { f[RESPONSE_HEAD..] }

  lemma Image(x: nat)
    ensures ReadBe32(Be32(x)) == x % U32
  {
    Be32RoundTrip(x, []);
    assert Be32(x) + [] == Be32(x);
  }

  lemma Middle(a: seq<Byte>, b: seq<Byte>, c: seq<Byte>)
    ensures (a + b + c)[|a|..|a| + |b|] == b && (a + b + c)[|a| + |b|..] == c
  {
  }

  /** What a client writes is one frame and the receiver reads back the same
      flag, session id (32 bits of it) and data. */
  lemma RequestRoundTrip(sync: bool, sid: nat, data: seq<Byte>)
    requires |data| < U32
    ensures var f := RequestFrame(sync, sid, data);
            && IsFrame(REQUEST_HEAD, f)
            && RequestSync(f) == (if sync then 1 else 0)
            && RequestSid(f) == sid % U32
            && RequestData(f) == data
  {
    var f := RequestFrame(sync, sid, data);
    Image(sid);
    Image(|data|);
    Middle([if sync then 1 else 0], Be32(sid), Be32(|data|) + data);
    Middle([if sync then 1 else 0] + Be32(sid), Be32(|data|), data);
    assert f == [if sync then 1 else 0] + Be32(sid) + (Be32(|data|) + data);
  }

  lemma ResponseRoundTrip(sid: nat, data: seq<Byte>)
    requires |data| < U32
    ensures var f := ResponseFrame(sid, data);
            && IsFrame(RESPONSE_HEAD, f)
            && ResponseSid(f) == sid % U32
            && ResponseData(f) == data
  {
    var f := ResponseFrame(sid, data);
    Image(sid);
    Image(|data|);
    Middle([], Be32(sid), Be32(|data|) + data);
    Middle(Be32(sid), Be32(|data|), data);
    assert f == [] + Be32(sid) + (Be32(|data|) + data);
  }
}
