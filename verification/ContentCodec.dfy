/** The content of a network message (Core/NetMsgBusUtility.hpp): sender and message
    id behind one length byte each, then the parameter behind a 32-bit length. */
module ContentCodec {
  import opened Bytes

  /** What a decoder finds: a value, nothing, or a value that would have to be read
      from behind the content. */
  datatype Found = Found(value: seq<Byte>) | Missing | Overrun

  /** `(uint8_t)size`. */
  function Low8(n: nat): Byte { (n % 256) as Byte }

  // ------------------------------------------------------------ decoding

  function GetMsgSender(content: seq<Byte>): Found {
    if |content| < 1 then Missing
    else
      var n := content[0] as nat;
      if |content| < 1 + n then Missing else Found(content[1..1 + n])
  }

  function GetMsgId(content: seq<Byte>): Found {
    if |content| < 1 then Missing
    else
      var n := content[0] as nat;
      if |content| < 1 + n + 1 then Missing
      else
        var k := content[1 + n] as nat;
        if |content| < 1 + n + 1 + k then Missing else Found(content[n + 2..n + 2 + k])
  }

  /** Where the parameter's length stands. */
  function ParamOffset(content: seq<Byte>): (at: nat)
    requires |content| >= 1 && |content| >= content[0] as nat + 2
    ensures at < 513
  {
    1 + content[0] as nat + 1 + content[1 + content[0] as nat] as nat
  }

  /** The last length check adds up in 32 bits. */
  function GetMsgParam(content: seq<Byte>): Found {
    if |content| < 1 || |content| < content[0] as nat + 2 then Missing
    else
      var at := ParamOffset(content);
      if |content| < at + 4 then Missing
      else
        var len := ReadBe32(content[at..at + 4]);
        if |content| < (at + 4 + len) % U32 then Missing
        else if at + 4 + len <= |content| then Found(content[at + 4..at + 4 + len])
        else Overrun
  }

  // ------------------------------------------------------------ encoding

  /** What the encoder keeps of a name: as many bytes as its length byte says. */
  function Kept(name: seq<Byte>): (r: seq<Byte>)
    ensures r <= name && |r| < 256
  {
    name[..|name| % 256]
  }

  function Content(msgid: seq<Byte>, param: seq<Byte>, sender: seq<Byte>): seq<Byte> {
    ([Low8(|sender|)] + Kept(sender)) + (([Low8(|msgid|)] + Kept(msgid)) + (Be32(|param|) + param))
  }

  function ContentLength(msgid: seq<Byte>, param: seq<Byte>, sender: seq<Byte>): nat {
    1 + |sender| % 256 + 1 + |msgid| % 256 + 4 + |param|
  }

  /** `memcpy` to a moving position. */
  method Copy(data: array<Byte>, at: nat, src: seq<Byte>) returns (next: nat)
    requires at + |src| <= data.Length
    modifies data
    ensures next == at + |src|
    ensures data[..next] == old(data[..at]) + src
  {
    var i := 0;
    while i < |src|
      invariant 0 <= i <= |src|
      invariant data[..at + i] == old(data[..at]) + src[..i]
    {
      data[at + i] := src[i];
      assert data[..at + i + 1] == data[..at + i] + [src[i]];
      assert src[..i + 1] == src[..i] + [src[i]];
      i := i + 1;
    }
    assert src[..i] == src;
    next := at + |src|;
  }

  /** `GenerateNetMsgContent`. The total must fit the 32 bits that hold it. */
  method GenerateNetMsgContent(msgid: seq<Byte>, param: seq<Byte>, sender: seq<Byte>) returns (data: array<Byte>)
    requires ContentLength(msgid, param, sender) < U32
    ensures fresh(data) && data[..] == Content(msgid, param, sender)
  {
    var msgsender_len, msgid_len := Low8(|sender|), Low8(|msgid|);
    data := new Byte[1 + msgsender_len as nat + 1 + msgid_len as nat + 4 + |param|];
    var pdata := Copy(data, 0, [msgsender_len]);
    pdata := Copy(data, pdata, sender[..msgsender_len as nat]);
    pdata := Copy(data, pdata, [msgid_len]);
    pdata := Copy(data, pdata, msgid[..msgid_len as nat]);
    pdata := Copy(data, pdata, Be32(|param|));
    pdata := Copy(data, pdata, param);
    assert data[..pdata] == data[..];
    Regroup([msgsender_len], Kept(sender), [msgid_len], Kept(msgid), Be32(|param|), param);
  }

  lemma Regroup(a: seq<Byte>, b: seq<Byte>, c: seq<Byte>, d: seq<Byte>, e: seq<Byte>, f: seq<Byte>)
    ensures [] + a + b + c + d + e + f == (a + b) + ((c + d) + (e + f))
  {
  }

  // ------------------------------------------------------------ round trip

  /** A field behind its length byte, in front of anything. */
  lemma FieldAt(name: seq<Byte>, rest: seq<Byte>)
    ensures var s := ([Low8(|name|)] + Kept(name)) + rest; var n := |name| % 256;
            && |s| == 1 + n + |rest| && s[0] as nat == n
            && s[1..1 + n] == Kept(name) && s[1 + n..] == rest
  {
  }

  lemma SenderRoundTrip(msgid: seq<Byte>, param: seq<Byte>, sender: seq<Byte>)
    ensures GetMsgSender(Content(msgid, param, sender)) == Found(Kept(sender))
    ensures GetMsgSender(Content(msgid, param, sender)) == Found(sender) <==> |sender| < 256
  {
    FieldAt(sender, ([Low8(|msgid|)] + Kept(msgid)) + (Be32(|param|) + param));
  }

  lemma IdRoundTrip(msgid: seq<Byte>, param: seq<Byte>, sender: seq<Byte>)
    ensures GetMsgId(Content(msgid, param, sender)) == Found(Kept(msgid))
    ensures GetMsgId(Content(msgid, param, sender)) == Found(msgid) <==> |msgid| < 256
  {
    var rest := Be32(|param|) + param;
    var second := ([Low8(|msgid|)] + Kept(msgid)) + rest;
    var s := Content(msgid, param, sender);
    FieldAt(sender, second);
    FieldAt(msgid, rest);
    var n, k := |sender| % 256, |msgid| % 256;
    assert s[1 + n] == s[1 + n..][0];
    assert s[n + 2..n + 2 + k] == s[1 + n..][1..1 + k];
  }

  /** On any content: the sender is there exactly if as many bytes follow its length
      byte, and is those. */
  lemma SenderExact(content: seq<Byte>, v: seq<Byte>)
    ensures GetMsgSender(content) == Found(v) <==> |content| > 0 && content[0] as nat == |v| && [content[0]] + v <= content
    ensures GetMsgSender(content) != Overrun
  {
    if |content| > 0 && content[0] as nat == |v| && [content[0]] + v <= content {
      var t := [content[0]] + v;
      assert content[..|t|] == t && content[1..1 + |v|] == t[1..];
    } else if |content| > 0 && |content| >= 1 + content[0] as nat {
      var w := content[1..1 + content[0] as nat];
      assert [content[0]] + w == content[..1 + |w|];
    }
  }

  /** On any content: the id is the field behind the sender, read in the same way. */
  lemma IdIsNext(content: seq<Byte>)
    ensures GetMsgId(content) ==
            match GetMsgSender(content)
            case Found(v) => GetMsgSender(content[1 + |v|..])
            case _ => Missing
  {
    var s := GetMsgSender(content);
    if s.Found? {
      var rest := content[1 + |s.value|..];
      assert forall i :: 0 <= i < |rest| ==> rest[i] == content[1 + |s.value| + i];
      var t := GetMsgSender(rest);
      if t.Found? {
        var n, k := content[0] as nat, rest[0] as nat;
        assert rest[1..1 + k] == content[n + 2..n + 2 + k];
      }
    }
  }

  /** Where the parameter stands in an encoded content. */
  lemma OffsetIs(msgid: seq<Byte>, param: seq<Byte>, sender: seq<Byte>)
    ensures var s := Content(msgid, param, sender); var at := 1 + |sender| % 256 + 1 + |msgid| % 256;
            && |s| == ContentLength(msgid, param, sender) && |s| >= s[0] as nat + 2
            && ParamOffset(s) == at && s[at..] == Be32(|param|) + param
  {
    var rest := Be32(|param|) + param;
    var second := ([Low8(|msgid|)] + Kept(msgid)) + rest;
    var s := Content(msgid, param, sender);
    FieldAt(sender, second);
    FieldAt(msgid, rest);
    var n, k := |sender| % 256, |msgid| % 256;
    assert s[1 + n] == s[1 + n..][0];
    assert s[n + 2 + k..] == s[1 + n..][1 + k..];
  }

  lemma DeclaredLength(s: seq<Byte>, at: nat, param: seq<Byte>)
    requires at <= |s| && s[at..] == Be32(|param|) + param && |param| < U32
    ensures |s| == at + 4 + |param| && ReadBe32(s[at..at + 4]) == |param| && s[at + 4..at + 4 + |param|] == param
  {
    Be32RoundTrip(|param|, []);
    assert Be32(|param|) + [] == Be32(|param|);
    assert s[at..at + 4] == s[at..][..4] == Be32(|param|);
    var tail := s[at..];
    assert tail[4..4 + |param|] == param;
    assert s[at + 4..at + 4 + |param|] == tail[4..4 + |param|];
  }

  lemma ParamRoundTrip(msgid: seq<Byte>, param: seq<Byte>, sender: seq<Byte>)
    requires ContentLength(msgid, param, sender) < U32
    ensures GetMsgParam(Content(msgid, param, sender)) == Found(param)
  {
    var s := Content(msgid, param, sender);
    OffsetIs(msgid, param, sender);
    DeclaredLength(s, ParamOffset(s), param);
  }

  /** A content cut short anywhere is noticed: the parameter is reported missing. */
  lemma TruncationIsNoticed(msgid: seq<Byte>, param: seq<Byte>, sender: seq<Byte>, k: nat)
    requires ContentLength(msgid, param, sender) < U32
    requires k < |Content(msgid, param, sender)|
    ensures GetMsgParam(Content(msgid, param, sender)[..k]) == Missing
  {
    var s := Content(msgid, param, sender);
    OffsetIs(msgid, param, sender);
    DeclaredLength(s, ParamOffset(s), param);
    CutIsMissing(s, ParamOffset(s), |param|, k);
  }

  /** A prefix that reaches the parameter's length finds it where it was. */
  lemma CutOffset(s: seq<Byte>, k: nat)
    requires |s| >= 1 && |s| >= s[0] as nat + 2 && k <= |s| && k >= s[0] as nat + 2
    ensures k >= 1 && s[..k][0] == s[0] && ParamOffset(s[..k]) == ParamOffset(s)
  {
  }

  lemma CutIsMissing(s: seq<Byte>, at: nat, len: nat, k: nat)
    requires |s| >= 1 && |s| >= s[0] as nat + 2 && ParamOffset(s) == at
    requires at + 4 + len == |s| < U32 && ReadBe32(s[at..at + 4]) == len && k < |s|
    ensures GetMsgParam(s[..k]) == Missing
  {
    var t := s[..k];
    if k >= 1 && k >= s[0] as nat + 2 {
      CutOffset(s, k);
      if k >= at + 4 {
        assert t[at..at + 4] == s[at..at + 4];
      }
    }
  }

  /** The decoder stays inside every content whose declared total fits 32 bits, and
      only those: exactly a total that wraps below the content's length escapes. */
  lemma OverrunExact(content: seq<Byte>)
    requires |content| >= 1 && |content| >= content[0] as nat + 2 && |content| >= ParamOffset(content) + 4
    ensures var at := ParamOffset(content); var total := at + 4 + ReadBe32(content[at..at + 4]);
            |content| < U32 ==> (GetMsgParam(content) == Overrun <==> total >= U32 && total - U32 <= |content|)
  {
    var at := ParamOffset(content);
    var total := at + 4 + ReadBe32(content[at..at + 4]);
    assert total < 2 * U32;
  }

  /** For example six bytes, empty names and a declared length of 2^32 - 1: the total
      wraps to 5, and the parameter would be copied from behind the content. */
  lemma SixBytesOverrun()
    ensures GetMsgParam([0, 0, 255, 255, 255, 255]) == Overrun
  {
    var content: seq<Byte> := [0, 0, 255, 255, 255, 255];
    assert ParamOffset(content) == 2 && content[2..6] == [255, 255, 255, 255];
    assert ReadBe32(content[2..6]) == 0xFFFF_FFFF;
  }
}
