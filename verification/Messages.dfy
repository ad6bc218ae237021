/** The packed messages between clients and the server (Core/msgbus_def.cpp,
    Core/msgbus_def.h): a 16-byte head with type, id and body length, then a body of
    fixed fields, C strings in 64-byte slots, and length-prefixed tails. */
module Messages {
  import opened Bytes
  import opened Framing
  import Codec = ContentCodec

  datatype Option<T> = None | Some(value: T)

  const MAX_SERVICE_NAME: nat := 64

  /** A packed `ClientHost`: address, port and busy state, in network order already. */
  const HOST_SIZE: nat := 10

  // ------------------------------------------------------------ C strings

  /** `strncpy`: up to a NUL, then zeros. */
  function Strncpy(s: seq<Byte>, n: nat): (r: seq<Byte>)
    ensures |r| == n
    decreases |s|
  {
    if n == 0 then [] else if s == [] || s[0] == 0 then Zeros(n) else [s[0]] + Strncpy(s[1..], n - 1)
  }

  /** What a C string means: the bytes before the first NUL. */
  function CString(s: seq<Byte>): seq<Byte> {
    if s == [] || s[0] == 0 then [] else [s[0]] + CString(s[1..])
  }

  lemma {:induction false} StrncpyTwice(s: seq<Byte>, n: nat)
    ensures Strncpy(Strncpy(s, n), n) == Strncpy(s, n)
    decreases n
  {
    if n > 0 && s != [] && s[0] != 0 {
      StrncpyTwice(s[1..], n - 1);
      assert ([s[0]] + Strncpy(s[1..], n - 1))[1..] == Strncpy(s[1..], n - 1);
    }
  }

  /** A copy of the whole buffer means the same. */
  lemma {:induction false} StrncpyMeans(s: seq<Byte>)
    ensures CString(Strncpy(s, |s|)) == CString(s)
  {
    if s != [] && s[0] != 0 {
      StrncpyMeans(s[1..]);
      assert ([s[0]] + Strncpy(s[1..], |s| - 1))[1..] == Strncpy(s[1..], |s| - 1);
    }
  }

  // ------------------------------------------------------------ fields

  datatype Field =
    | Number(width: nat, value: nat)   // 1, 2 or 4 bytes in network order
    | Name(bytes: seq<Byte>)           // char[64]
    | Host(bytes: seq<Byte>)           // a packed ClientHost
    | Text(bytes: seq<Byte>)           // 16-bit length, then strncpy
    | Blob(bytes: seq<Byte>)           // 32-bit length, then memcpy

  datatype Shape = ANumber(width: nat) | AName | AHost | AText | ABlob

  function ShapeOf(f: Field): Shape {
    match f
    case Number(w, _) => ANumber(w)
    case Name(_) => AName
    case Host(_) => AHost
    case Text(_) => AText
    case Blob(_) => ABlob
  }

  /** The field is what its C++ type can hold. */
  predicate Fits(f: Field) {
    match f
    case Number(w, v) => (w == 1 && v < 256) || (w == 2 && v < U16) || (w == 4 && v < U32)
    case Name(b) => |b| == MAX_SERVICE_NAME
    case Host(b) => |b| == HOST_SIZE
    case Text(b) => |b| < U16
    case Blob(b) => |b| < U32
  }

  function Digits(w: nat, v: nat): seq<Byte> {
    if w == 1 then [v % 256] else if w == 2 then Be16(v) else Be32(v)
  }

  /** The bytes that packing writes. */
  function Image(f: Field): seq<Byte> {
    match f
    case Number(w, v) => Digits(w, v)
    case Name(b) => Strncpy(b, MAX_SERVICE_NAME)
    case Host(b) => b
    case Text(b) => Be16(|b|) + Strncpy(b, |b|)
    case Blob(b) => Be32(|b|) + b
  }

  /** What comes back: the same field, C strings cleared behind their NUL. */
  function Cleared(f: Field): Field {
    match f
    case Name(b) => Name(Strncpy(b, MAX_SERVICE_NAME))
    case Text(b) => Text(Strncpy(b, |b|))
    case _ => f
  }

  datatype Reading = Reading(field: Field, rest: seq<Byte>)

  function ReadNumber(w: nat, s: seq<Byte>): nat
    requires |s| >= w && (w == 1 || w == 2 || w == 4)
  {
    if w == 1 then s[0] else if w == 2 then ReadBe16(s) else ReadBe32(s)
  }

  /** One step of `UnPackBody`, which does not look where the data ends: `None` when it
      reads a byte behind it. A string copy stops reading at a NUL. */
  function Read(sh: Shape, s: seq<Byte>): Option<Reading> {
    match sh
    case ANumber(w) =>
      if |s| < w || !(w == 1 || w == 2 || w == 4) then None
      else Some(Reading(Number(w, ReadNumber(w, s)), s[w..]))
    case AName =>
      if |s| < MAX_SERVICE_NAME && 0 !in s then None
      else Some(Reading(Name(Strncpy(Upto(s, MAX_SERVICE_NAME), MAX_SERVICE_NAME)), From(s, MAX_SERVICE_NAME)))
    case AHost =>
      if |s| < HOST_SIZE then None else Some(Reading(Host(s[..HOST_SIZE]), s[HOST_SIZE..]))
    case AText =>
      if |s| < 2 || (|s| < 2 + ReadBe16(s) && 0 !in s[2..]) then None
      else
        var n := ReadBe16(s);
        Some(Reading(Text(Strncpy(Upto(s[2..], n), n)), From(s[2..], n)))
    case ABlob =>
      if |s| < 4 || |s| < 4 + ReadBe32(s) then None
      else
        var n := ReadBe32(s);
        Some(Reading(Blob(s[4..4 + n]), s[4 + n..]))
  }

  /** The first `n` bytes, and what follows them; nothing does behind the end. */
  function Upto(s: seq<Byte>, n: nat): seq<Byte> { if |s| < n then s else s[..n] }
  function From(s: seq<Byte>, n: nat): seq<Byte> { if |s| < n then [] else s[n..] }

  lemma SmallMod(x: nat, m: nat)
    requires x < m
    ensures x % m == x
  {
  }

  lemma ReadDigits(w: nat, v: nat, rest: seq<Byte>)
    requires Fits(Number(w, v))
    ensures ReadNumber(w, Digits(w, v) + rest) == v && |Digits(w, v)| == w
  {
    if w == 2 {
      Be16RoundTrip(v, rest);
      SmallMod(v, U16);
    } else if w == 4 {
      Be32RoundTrip(v, rest);
      SmallMod(v, U32);
    }
  }

  lemma Prefixed(head: seq<Byte>, body: seq<Byte>, rest: seq<Byte>)
    ensures var s := (head + body) + rest;
            && s == head + (body + rest)
            && s[|head|..|head| + |body|] == body && s[|head| + |body|..] == rest
  {
  }

  lemma ReadImageName(b: seq<Byte>, rest: seq<Byte>)
    requires |b| == MAX_SERVICE_NAME
    ensures Read(AName, Image(Name(b)) + rest) == Some(Reading(Cleared(Name(b)), rest))
  {
    var t := Strncpy(b, MAX_SERVICE_NAME);
    StrncpyTwice(b, MAX_SERVICE_NAME);
    assert (t + rest)[..MAX_SERVICE_NAME] == t && (t + rest)[MAX_SERVICE_NAME..] == rest;
  }

  lemma ReadImageText(b: seq<Byte>, rest: seq<Byte>)
    requires |b| < U16
    ensures Read(AText, Image(Text(b)) + rest) == Some(Reading(Cleared(Text(b)), rest))
  {
    var t := Strncpy(b, |b|);
    Prefixed(Be16(|b|), t, rest);
    Be16RoundTrip(|b|, t + rest);
    SmallMod(|b|, U16);
    StrncpyTwice(b, |b|);
    assert ((Be16(|b|) + t) + rest)[2..] == t + rest;
    assert (t + rest)[..|b|] == t && (t + rest)[|b|..] == rest;
  }

  lemma ReadImageBlob(b: seq<Byte>, rest: seq<Byte>)
    requires |b| < U32
    ensures Read(ABlob, Image(Blob(b)) + rest) == Some(Reading(Blob(b), rest))
  {
    Prefixed(Be32(|b|), b, rest);
    Be32RoundTrip(|b|, b + rest);
    SmallMod(|b|, U32);
  }

  /** Reading back what packing wrote, in front of anything. */
  lemma ReadImage(f: Field, rest: seq<Byte>)
    requires Fits(f)
    ensures Read(ShapeOf(f), Image(f) + rest) == Some(Reading(Cleared(f), rest))
  {
    match f
    case Number(w, v) => ReadDigits(w, v, rest);
    case Name(b) => ReadImageName(b, rest);
    case Host(b) => assert (b + rest)[..HOST_SIZE] == b;
    case Text(b) => ReadImageText(b, rest);
    case Blob(b) => ReadImageBlob(b, rest);
  }

  lemma {:induction false} StrncpyEnds(s: seq<Byte>, n: nat, k: nat)
    requires k <= n && 0 in Strncpy(s, n)[..k]
    ensures Strncpy(Strncpy(s, n)[..k], n) == Strncpy(s, n)
    decreases n
  {
    var t := Strncpy(s, n);
    assert k > 0;
    if s != [] && s[0] != 0 {
      var rest := Strncpy(s[1..], n - 1);
      assert t[..k] == [s[0]] + rest[..k - 1];
      StrncpyEnds(s[1..], n - 1, k - 1);
      assert t[..k][1..] == rest[..k - 1];
    } else {
      assert t[..k][0] == 0;
    }
  }

  /** The cut at `k` lies behind the NUL of a C string. */
  predicate EndsEarly(f: Field, k: int) {
    match f
    case Name(_) => 0 < k <= |Image(f)| && 0 in Image(f)[..k]
    case Text(_) => 2 < k <= |Image(f)| && 0 in Image(f)[2..k]
    case _ => false
  }

  lemma ReadCutName(b: seq<Byte>, k: nat)
    requires |b| == MAX_SERVICE_NAME && k < MAX_SERVICE_NAME
    ensures Read(AName, Image(Name(b))[..k]) ==
            if EndsEarly(Name(b), k) then Some(Reading(Cleared(Name(b)), [])) else None
  {
    var s := Strncpy(b, MAX_SERVICE_NAME)[..k];
    if 0 in s {
      StrncpyEnds(b, MAX_SERVICE_NAME, k);
    }
  }

  lemma ReadCutText(b: seq<Byte>, k: nat)
    requires |b| < U16 && k < 2 + |b|
    ensures Read(AText, Image(Text(b))[..k]) ==
            if EndsEarly(Text(b), k) then Some(Reading(Cleared(Text(b)), [])) else None
  {
    var t, s := Strncpy(b, |b|), Image(Text(b))[..k];
    if k >= 2 {
      assert s == Be16(|b|) + t[..k - 2] && s[2..] == t[..k - 2];
      Be16RoundTrip(|b|, t[..k - 2]);
      SmallMod(|b|, U16);
      assert Image(Text(b))[2..k] == t[..k - 2];
      if 0 in t[..k - 2] {
        StrncpyEnds(b, |b|, k - 2);
      }
    }
  }

  lemma ReadCutBlob(b: seq<Byte>, k: nat)
    requires |b| < U32 && k < 4 + |b|
    ensures Read(ABlob, Image(Blob(b))[..k]) == None
  {
    var s := Image(Blob(b))[..k];
    if k >= 4 {
      assert s == Be32(|b|) + b[..k - 4];
      Be32RoundTrip(|b|, b[..k - 4]);
      SmallMod(|b|, U32);
    }
  }

  /** A field cut short is read past its end, unless it is a C string that has ended. */
  lemma ReadCut(f: Field, k: nat)
    requires Fits(f) && k < |Image(f)|
    ensures Read(ShapeOf(f), Image(f)[..k]) == if EndsEarly(f, k) then Some(Reading(Cleared(f), [])) else None
  {
    match f
    case Name(b) => ReadCutName(b, k);
    case Text(b) => ReadCutText(b, k);
    case Blob(b) => ReadCutBlob(b, k);
    case _ =>
  }

  // ------------------------------------------------------------ bodies

  predicate AllFit(fs: seq<Field>) {
    forall i :: 0 <= i < |fs| ==> Fits(fs[i])
  }

  function Shapes(fs: seq<Field>): seq<Shape> {
    seq(|fs|, i requires 0 <= i < |fs| => ShapeOf(fs[i]))
  }

  function Packed(fs: seq<Field>): seq<Byte> {
    if fs == [] then [] else Image(fs[0]) + Packed(fs[1..])
  }

  function AllCleared(fs: seq<Field>): seq<Field> {
    seq(|fs|, i requires 0 <= i < |fs| => Cleared(fs[i]))
  }

  datatype Unpacked = Unpacked(fields: seq<Field>, rest: seq<Byte>)

  function Unpack(shapes: seq<Shape>, s: seq<Byte>): Option<Unpacked>
    decreases |shapes|
  {
    if shapes == [] then Some(Unpacked([], s))
    else
      match Read(shapes[0], s)
      case None => None
      case Some(r) =>
        match Unpack(shapes[1..], r.rest)
        case None => None
        case Some(u) => Some(Unpacked([r.field] + u.fields, u.rest))
  }

  /** Unpacking inverts packing, for every list of fields, up to C-string meaning. */
  lemma {:induction false} UnpackPacked(fs: seq<Field>, rest: seq<Byte>)
    requires AllFit(fs)
    ensures Unpack(Shapes(fs), Packed(fs) + rest) == Some(Unpacked(AllCleared(fs), rest))
    decreases |fs|
  {
    if fs == [] {
      assert Packed(fs) + rest == rest && Shapes(fs) == [] && AllCleared(fs) == [];
    } else {
      ReadFirst(fs, rest);
      UnpackPacked(fs[1..], rest);
      Tails(fs);
      UnpackNext(Shapes(fs), Packed(fs) + rest, Cleared(fs[0]), Packed(fs[1..]) + rest, AllCleared(fs[1..]), rest);
    }
  }

  lemma Tails(fs: seq<Field>)
    requires fs != []
    ensures Shapes(fs)[0] == ShapeOf(fs[0]) && Shapes(fs)[1..] == Shapes(fs[1..])
    ensures AllCleared(fs) == [Cleared(fs[0])] + AllCleared(fs[1..])
  {
  }

  lemma ReadFirst(fs: seq<Field>, rest: seq<Byte>)
    requires fs != [] && Fits(fs[0])
    ensures Read(ShapeOf(fs[0]), Packed(fs) + rest) == Some(Reading(Cleared(fs[0]), Packed(fs[1..]) + rest))
  {
    Assoc(Image(fs[0]), Packed(fs[1..]), rest);
    ReadImage(fs[0], Packed(fs[1..]) + rest);
  }

  /** One field in front of others that unpack. */
  lemma UnpackNext(l: seq<Shape>, s: seq<Byte>, f: Field, more: seq<Byte>, fs: seq<Field>, rest: seq<Byte>)
    requires l != [] && Read(l[0], s) == Some(Reading(f, more)) && Unpack(l[1..], more) == Some(Unpacked(fs, rest))
    ensures Unpack(l, s) == Some(Unpacked([f] + fs, rest))
  {
  }

  /** Where the last field begins. */
  function LastAt(fs: seq<Field>): int
    requires fs != []
  {
    |Packed(fs)| - |Image(fs[|fs| - 1])|
  }

  lemma LastAtNext(fs: seq<Field>)
    requires |fs| > 1
    ensures LastAt(fs) == |Image(fs[0])| + LastAt(fs[1..]) && fs[1..][|fs| - 2] == fs[|fs| - 1]
  {
  }

  lemma {:induction false} LastAtBound(fs: seq<Field>)
    requires fs != []
    ensures 0 <= LastAt(fs)
    decreases |fs|
  {
    if |fs| == 1 {
      assert Packed(fs[1..]) == [];
    } else {
      LastAtNext(fs);
      LastAtBound(fs[1..]);
    }
  }

  lemma EmptyOverruns(shapes: seq<Shape>)
    requires shapes != [] && (shapes[0].ANumber? ==> shapes[0].width > 0)
    ensures Unpack(shapes, []) == None
  {
  }

  lemma CutInOnly(f: Field, k: nat)
    requires Fits(f) && k < |Image(f)|
    ensures Unpack(Shapes([f]), Image(f)[..k]) ==
            if EndsEarly(f, k) then Some(Unpacked(AllCleared([f]), [])) else None
  {
    ReadCut(f, k);
    assert Shapes([f]) == [ShapeOf(f)] && AllCleared([f]) == [Cleared(f)];
    if EndsEarly(f, k) {
      UnpackOne(ShapeOf(f), Image(f)[..k], Reading(Cleared(f), []));
    }
  }

  /** What becomes of fields cut at `k`: a cut in any field but the last makes reading
      run past the end, and so does one in the last, unless it lies behind the NUL of a
      C string. */
  function CutResult(fs: seq<Field>, k: nat): Option<Unpacked>
    requires fs != []
    decreases |fs|
  {
    if |fs| == 1 then if EndsEarly(fs[0], k) then Some(Unpacked([Cleared(fs[0])], [])) else None
    else if k < |Image(fs[0])| then None
    else InFront(Cleared(fs[0]), CutResult(fs[1..], k - |Image(fs[0])|))
  }

  ghost predicate CutFine(fs: seq<Field>, k: nat) {
    fs != [] && k <= |Packed(fs)| && Unpack(Shapes(fs), Packed(fs)[..k]) == CutResult(fs, k)
  }

  /** Fields cut short anywhere are read past their end; the one exception is a cut
      behind the NUL of a C string at the very end, which goes unnoticed. */
  lemma {:induction false} UnpackCut(fs: seq<Field>, k: nat)
    requires AllFit(fs) && k < |Packed(fs)|
    ensures CutFine(fs, k)
    decreases |fs|
  {
    if |fs| == 1 {
      CutSingle(fs, k);
    } else if k < |Image(fs[0])| {
      CutEarly(fs, k);
    } else {
      UnpackCut(fs[1..], k - |Image(fs[0])|);
      CutLate(fs, k, CutResult(fs[1..], k - |Image(fs[0])|));
    }
  }

  lemma CutSingle(fs: seq<Field>, k: nat)
    requires AllFit(fs) && |fs| == 1 && k < |Packed(fs)|
    ensures CutFine(fs, k)
  {
    assert Packed(fs[1..]) == [] && Packed(fs) == Image(fs[0]) + [] == Image(fs[0]);
    CutInOnly(fs[0], k);
    assert fs == [fs[0]];
    assert AllCleared(fs) == [Cleared(fs[0])];
  }

  lemma CutEarly(fs: seq<Field>, k: nat)
    requires AllFit(fs) && |fs| > 1 && k < |Image(fs[0])|
    ensures CutFine(fs, k)
  {
    assert Packed(fs)[..k] == Image(fs[0])[..k];
    CutInFirst(fs, k);
  }

  lemma CutLate(fs: seq<Field>, k: nat, later: Option<Unpacked>)
    requires AllFit(fs) && |fs| > 1 && |Image(fs[0])| <= k <= |Packed(fs)|
    requires Unpack(Shapes(fs[1..]), Packed(fs[1..])[..k - |Image(fs[0])|]) == later
    ensures Unpack(Shapes(fs), Packed(fs)[..k]) == InFront(Cleared(fs[0]), later)
  {
    var first, rest := Image(fs[0]), Packed(fs[1..]);
    assert Packed(fs) == first + rest;
    CutBehind(first, rest, k);
    UnpackFirst(fs, rest[..k - |first|]);
  }

  /** One more field in front of what was unpacked. */
  function InFront(f: Field, later: Option<Unpacked>): Option<Unpacked> {
    match later
    case None => None
    case Some(u) => Some(Unpacked([f] + u.fields, u.rest))
  }

  /** The cut lies behind the NUL of the last field. */
  predicate EndsAtLast(fs: seq<Field>, k: int)
    requires fs != []
  {
    EndsEarly(fs[|fs| - 1], k - LastAt(fs))
  }

  lemma EndsAtLastNext(fs: seq<Field>, k: int)
    requires |fs| > 1
    ensures EndsAtLast(fs, k) <==> k >= |Image(fs[0])| && EndsAtLast(fs[1..], k - |Image(fs[0])|)
  {
    LastAtNext(fs);
    LastAtBound(fs[1..]);
  }

  function WholeIf(fs: seq<Field>, all: bool): Option<Unpacked> {
    if all then Some(Unpacked(AllCleared(fs), [])) else None
  }

  lemma WholeIfNext(fs: seq<Field>, all: bool)
    requires fs != []
    ensures InFront(Cleared(fs[0]), WholeIf(fs[1..], all)) == WholeIf(fs, all)
  {
    assert AllCleared(fs) == [Cleared(fs[0])] + AllCleared(fs[1..]);
  }

  /** In other words: only a cut behind the NUL of the last field goes unnoticed. */
  lemma {:induction false} CutResultMeans(fs: seq<Field>, k: nat)
    requires fs != []
    ensures CutResult(fs, k) == WholeIf(fs, EndsAtLast(fs, k))
    decreases |fs|
  {
    if |fs| == 1 {
      assert Packed(fs[1..]) == [] && LastAt(fs) == 0;
      assert AllCleared(fs) == [Cleared(fs[0])];
    } else {
      EndsAtLastNext(fs, k);
      if k >= |Image(fs[0])| {
        CutResultMeans(fs[1..], k - |Image(fs[0])|);
        WholeIfNext(fs, EndsAtLast(fs, k));
      }
    }
  }

  /** A cut in a field that is not the last one. */
  lemma CutInFirst(fs: seq<Field>, k: nat)
    requires AllFit(fs) && |fs| > 1 && k < |Image(fs[0])|
    ensures Unpack(Shapes(fs), Image(fs[0])[..k]) == None
  {
    assert Shapes(fs)[1..] == Shapes(fs[1..]);
    ReadCut(fs[0], k);
    assert Fits(fs[1]) && Shapes(fs[1..])[0] == ShapeOf(fs[1]);
    EmptyOverruns(Shapes(fs[1..]));
  }

  /** A whole field in front of what is left. */
  lemma UnpackFirst(fs: seq<Field>, rest: seq<Byte>)
    requires AllFit(fs) && fs != []
    ensures Unpack(Shapes(fs), Image(fs[0]) + rest) == InFront(Cleared(fs[0]), Unpack(Shapes(fs[1..]), rest))
  {
    assert Shapes(fs)[1..] == Shapes(fs[1..]) && Shapes(fs)[0] == ShapeOf(fs[0]);
    ReadImage(fs[0], rest);
  }

  // ------------------------------------------------------------ the messages

  datatype Kind =
    | RegisterReq | RegisterRsp | UnRegisterReq | ConfirmAliveReq | ConfirmAliveRsp
    | GetClientReq | GetClientRsp | SendMsgReq | SendMsgRsp

  function Layout(k: Kind): seq<Shape> {
    match k
    case RegisterReq => [AName, AHost]
    case RegisterRsp => [ANumber(2), AName, AText]
    case UnRegisterReq => [AName, AHost]
    case ConfirmAliveReq => [ANumber(1)]
    case ConfirmAliveRsp => [ANumber(2)]
    case GetClientReq => [AName]
    case GetClientRsp => [ANumber(2), AName, AHost]
    case SendMsgReq => [AName, AName, ABlob]
    case SendMsgRsp => [ANumber(2), AText]
  }

  /** 0 for requests, 1 for responses. */
  function MsgType(k: Kind): nat {
    if k.RegisterRsp? || k.ConfirmAliveRsp? || k.GetClientRsp? || k.SendMsgRsp? then 1 else 0
  }

  function BodyType(k: Kind): nat {
    match k
    case RegisterReq => 0x010001
    case UnRegisterReq => 0x010002
    case ConfirmAliveReq => 0x010003
    case SendMsgReq => 0x010004
    case GetClientReq => 0x010005
    case RegisterRsp => 0x020001
    case ConfirmAliveRsp => 0x020003
    case SendMsgRsp => 0x020004
    case GetClientRsp => 0x020005
  }

  /** The body type that `UnPackData` of a class tests for. */
  function TestedType(k: Kind): nat {
    if k == ConfirmAliveRsp then BodyType(RegisterRsp) else BodyType(k)
  }

  datatype Message = Message(kind: Kind, fields: seq<Field>)

  predicate Valid(m: Message) {
    Shapes(m.fields) == Layout(m.kind) && AllFit(m.fields) && |Packed(m.fields)| < U32
  }

  /** `Size()` of each class, without the head. */
  function DeclaredSize(m: Message): nat {
    match m.kind
    case RegisterReq | UnRegisterReq => MAX_SERVICE_NAME + HOST_SIZE
    case RegisterRsp => 2 + MAX_SERVICE_NAME + 2 + TailLength(m.fields)
    case ConfirmAliveReq => 1
    case ConfirmAliveRsp => 2
    case GetClientReq => MAX_SERVICE_NAME
    case GetClientRsp => 2 + MAX_SERVICE_NAME + HOST_SIZE
    case SendMsgReq => 2 * MAX_SERVICE_NAME + 4 + TailLength(m.fields)
    case SendMsgRsp => 2 + 2 + TailLength(m.fields)
  }

  function TailLength(fs: seq<Field>): nat {
    if fs == [] || fs[|fs| - 1].Number? then 0 else |fs[|fs| - 1].bytes|
  }

  function HeadFields(k: Kind, id: nat, len: nat): seq<Field> {
    [Number(1, 0x66), Number(2, 1), Number(1, MsgType(k)), Number(4, id), Number(4, BodyType(k)), Number(4, len)]
  }

  function HeadLayout(): seq<Shape> {
    [ANumber(1), ANumber(2), ANumber(1), ANumber(4), ANumber(4), ANumber(4)]
  }

  function PackData(m: Message, id: nat): seq<Byte> {
    Packed(HeadFields(m.kind, id, DeclaredSize(m))) + Packed(m.fields)
  }

  // ------------------------------------------------------------ unpacking a message

  /** How unpacking ends: with the fields; with an error code; with a `throw;` while no
      exception is being handled, which ends the process; or with a read behind the
      data. */
  datatype Outcome = Ok(fields: seq<Field>) | Rejected | Aborts | Overrun

  /** Kinds without a tail of variable length. Their length test throws. */
  predicate Fixed(k: Kind) {
    !k.RegisterRsp? && !k.SendMsgReq? && !k.SendMsgRsp?
  }

  /** The body without its tail, and the part before the tail's length. */
  function FixedSize(k: Kind): nat {
    match k
    case RegisterReq | UnRegisterReq => MAX_SERVICE_NAME + HOST_SIZE
    case RegisterRsp => 2 + MAX_SERVICE_NAME + 2
    case ConfirmAliveReq => 1
    case ConfirmAliveRsp => 2
    case GetClientReq => MAX_SERVICE_NAME
    case GetClientRsp => 2 + MAX_SERVICE_NAME + HOST_SIZE
    case SendMsgReq => 2 * MAX_SERVICE_NAME + 4
    case SendMsgRsp => 2 + 2
  }

  function Lead(k: Kind): seq<Shape>
    requires !Fixed(k)
  {
    Layout(k)[..|Layout(k)| - 1]
  }

  function LengthWidth(k: Kind): nat { if k.SendMsgReq? then 4 else 2 }

  /** The first length test of a kind with a tail. */
  function FirstTest(k: Kind): nat { if k.SendMsgRsp? then 2 else FixedSize(k) }

  function Unchecked(k: Kind, data: seq<Byte>): Outcome {
    match Unpack(Layout(k), data)
    case None => Overrun
    case Some(u) => Ok(u.fields)
  }

  /** `UnPackBody(data, told)`. A told length of 0, the default, turns every test off. */
  function BodyOutcome(k: Kind, data: seq<Byte>, told: nat): Outcome {
    if told == 0 then Unchecked(k, data)
    else if Fixed(k) then if told < FixedSize(k) then Aborts else Unchecked(k, data)
    else if told < FirstTest(k) then Rejected
    else
      match Unpack(Lead(k), data)
      case None => Overrun
      case Some(u) =>
        if told < FixedSize(k) then Rejected
        else if |u.rest| < LengthWidth(k) then Overrun
        else if told < FixedSize(k) + ReadNumber(LengthWidth(k), u.rest) then Rejected
        else Unchecked(k, data)
  }

  /** `UnPackData(data, told)` of class `k`: the head's two types must be the tested
      ones. Only kinds without a tail look at the told length, and none passes it on. */
  function DataOutcome(k: Kind, data: seq<Byte>, told: nat): Outcome {
    if Fixed(k) && told != 0 && told < PACKET_HEAD + FixedSize(k) then Aborts
    else
      match Unpack(HeadLayout(), data)
      case None => Overrun
      case Some(head) =>
        if |head.fields| != 6 || head.fields[2] != Number(1, MsgType(k)) || head.fields[4] != Number(4, TestedType(k)) then Rejected
        else BodyOutcome(k, head.rest, 0)
  }

  // ------------------------------------------------------------ sizes

  /** What a field takes. */
  function Width(f: Field): nat {
    match f
    case Number(w, _) => w
    case Name(_) => MAX_SERVICE_NAME
    case Host(_) => HOST_SIZE
    case Text(b) => 2 + |b|
    case Blob(b) => 4 + |b|
  }

  lemma ImageWidth(f: Field)
    requires Fits(f)
    ensures |Image(f)| == Width(f)
  {
  }

  lemma PackedCons(fs: seq<Field>, i: nat)
    requires i < |fs| && Fits(fs[i])
    ensures |Packed(fs[i..])| == Width(fs[i]) + |Packed(fs[i + 1..])|
  {
    assert fs[i..][0] == fs[i] && fs[i..][1..] == fs[i + 1..];
    ImageWidth(fs[i]);
  }

  /** Up to three fields, as all bodies have. */
  lemma PackedWidth(fs: seq<Field>)
    requires AllFit(fs) && 1 <= |fs| <= 3
    ensures |Packed(fs)| == Width(fs[0]) + (if |fs| > 1 then Width(fs[1]) else 0) + (if |fs| > 2 then Width(fs[2]) else 0)
  {
    assert fs[0..] == fs;
    assert Packed(fs[|fs|..]) == [];
    PackedCons(fs, 0);
    if |fs| > 1 { PackedCons(fs, 1); }
    if |fs| > 2 { PackedCons(fs, 2); }
  }

  lemma ShapeAt(fs: seq<Field>, i: nat)
    requires i < |fs|
    ensures ShapeOf(fs[i]) == Shapes(fs)[i]
  {
  }

  /** What a field of a shape takes, where its variable part is `tail` long. */
  function ShapeWidth(sh: Shape, tail: nat): nat {
    match sh
    case ANumber(w) => w
    case AName => MAX_SERVICE_NAME
    case AHost => HOST_SIZE
    case AText => 2 + tail
    case ABlob => 4 + tail
  }

  function LayoutWidth(l: seq<Shape>, tail: nat): nat {
    if |l| == 1 then ShapeWidth(l[0], tail)
    else if |l| == 2 then ShapeWidth(l[0], tail) + ShapeWidth(l[1], tail)
    else if |l| == 3 then ShapeWidth(l[0], tail) + ShapeWidth(l[1], tail) + ShapeWidth(l[2], tail)
    else 0
  }

  lemma LayoutIsDeclared(m: Message)
    ensures LayoutWidth(Layout(m.kind), TailLength(m.fields)) == DeclaredSize(m)
    ensures 1 <= |Layout(m.kind)| <= 3
    ensures forall i :: 0 <= i < |Layout(m.kind)| - 1 ==> !Layout(m.kind)[i].AText? && !Layout(m.kind)[i].ABlob?
  {
  }

  lemma WidthAt(fs: seq<Field>, i: nat)
    requires i < |fs| && (i < |fs| - 1 ==> !fs[i].Text? && !fs[i].Blob?)
    ensures Width(fs[i]) == ShapeWidth(ShapeOf(fs[i]), TailLength(fs))
  {
  }

  /** The declared body length is the number of bytes written, for every message. */
  lemma DeclaredIsWritten(m: Message)
    requires Valid(m)
    ensures DeclaredSize(m) == |Packed(m.fields)|
  {
    LayoutIsDeclared(m);
    WidthOfFields(m.fields, Layout(m.kind));
  }

  lemma WidthOfFields(fs: seq<Field>, l: seq<Shape>)
    requires AllFit(fs) && Shapes(fs) == l && 1 <= |l| <= 3
    requires forall i :: 0 <= i < |l| - 1 ==> !l[i].AText? && !l[i].ABlob?
    ensures |Packed(fs)| == LayoutWidth(l, TailLength(fs))
  {
    assert |fs| == |l|;
    PackedWidth(fs);
    ShapeAt(fs, 0);
    WidthAt(fs, 0);
    if |fs| > 1 { ShapeAt(fs, 1); WidthAt(fs, 1); }
    if |fs| > 2 { ShapeAt(fs, 2); WidthAt(fs, 2); }
  }

  // ------------------------------------------------------------ whole messages

  lemma HeadFits(k: Kind, id: nat, len: nat)
    requires id < U32 && len < U32
    ensures var fs := HeadFields(k, id, len); AllFit(fs) && Shapes(fs) == HeadLayout() && AllCleared(fs) == fs
  {
  }

  /** The head is 16 bytes and ends with the body length. */
  lemma HeadImage(k: Kind, id: nat, len: nat)
    requires id < U32 && len < U32
    ensures var s := Packed(HeadFields(k, id, len)); |s| == PACKET_HEAD && s[12..16] == Be32(len)
  {
    HeadJoined(k, id, len);
    SixParts([0x66], Be16(1), [MsgType(k)], Be32(id), Be32(BodyType(k)), Be32(len));
  }

  lemma HeadJoined(k: Kind, id: nat, len: nat)
    requires id < U32 && len < U32
    ensures Packed(HeadFields(k, id, len))
            == [0x66] + (Be16(1) + ([MsgType(k)] + (Be32(id) + (Be32(BodyType(k)) + Be32(len)))))
  {
    var fs := HeadFields(k, id, len);
    PackedSix(fs[0], fs[1], fs[2], fs[3], fs[4], fs[5]);
    assert fs == [fs[0]] + ([fs[1]] + ([fs[2]] + ([fs[3]] + ([fs[4]] + [fs[5]]))));
  }

  lemma PackedSix(a: Field, b: Field, c: Field, d: Field, e: Field, f: Field)
    ensures Packed([a] + ([b] + ([c] + ([d] + ([e] + [f])))))
            == Image(a) + (Image(b) + (Image(c) + (Image(d) + (Image(e) + Image(f)))))
  {
    PackedThree(d, e, f);
    PackedStep(c, [d] + ([e] + [f]));
    PackedStep(b, [c] + ([d] + ([e] + [f])));
    PackedStep(a, [b] + ([c] + ([d] + ([e] + [f]))));
  }

  lemma PackedStep(f: Field, fs: seq<Field>)
    ensures Packed([f] + fs) == Image(f) + Packed(fs)
  {
    assert ([f] + fs)[1..] == fs;
  }

  lemma SixParts(a: seq<Byte>, b: seq<Byte>, c: seq<Byte>, d: seq<Byte>, e: seq<Byte>, f: seq<Byte>)
    requires |a| == 1 && |b| == 2 && |c| == 1 && |d| == 4 && |e| == 4 && |f| == 4
    ensures var s := a + (b + (c + (d + (e + f))));
            && |s| == 16 && s[0] == a[0] && s[1..3] == b && s[3] == c[0] && s[4..8] == d && s[8..12] == e && s[12..16] == f
  {
  }

  /** The code of the operation, the same in a request and its response. */
  function Operation(k: Kind): nat {
    match k
    case RegisterReq | RegisterRsp => 1
    case UnRegisterReq => 2
    case ConfirmAliveReq | ConfirmAliveRsp => 3
    case SendMsgReq | SendMsgRsp => 4
    case GetClientReq | GetClientRsp => 5
  }

  predicate IsResponse(k: Kind) { k in {RegisterRsp, ConfirmAliveRsp, SendMsgRsp, GetClientRsp} }

  /** Where everything stands in the head of a packed message. */
  lemma HeadExact(m: Message, id: nat)
    requires Valid(m) && id < U32
    ensures var s := PackData(m, id);
            && |s| == 16 + |Packed(m.fields)|
            && s[0] == 0x66 && ReadBe16(s[1..3]) == 1
            && s[3] == (if IsResponse(m.kind) then 1 else 0)
            && ReadBe32(s[4..8]) == id
            && ReadBe32(s[8..12]) == (if IsResponse(m.kind) then 0x02_0000 else 0x01_0000) + Operation(m.kind)
            && ReadBe32(s[12..16]) == |Packed(m.fields)|
            && s[16..] == Packed(m.fields)
  {
    DeclaredIsWritten(m);
    var k, len := m.kind, DeclaredSize(m);
    var head, s := Packed(HeadFields(k, id, len)), PackData(m, id);
    HeadJoined(k, id, len);
    SixParts([0x66], Be16(1), [MsgType(k)], Be32(id), Be32(BodyType(k)), Be32(len));
    HeadPart(head, Packed(m.fields));
    Be16Alone(1);
    Be32Alone(id);
    Be32Alone(BodyType(k));
    Be32Alone(len);
  }

  lemma HeadPart(head: seq<Byte>, body: seq<Byte>)
    requires |head| == 16
    ensures var s := head + body;
            && s[0] == head[0] && s[1..3] == head[1..3] && s[3] == head[3] && s[4..8] == head[4..8]
            && s[8..12] == head[8..12] && s[12..16] == head[12..16] && s[16..] == body
  {
  }

  lemma Be32Alone(x: nat)
    requires x < U32
    ensures ReadBe32(Be32(x)) == x
  {
    Be32RoundTrip(x, []);
    assert Be32(x) + [] == Be32(x);
    SmallMod(x, U32);
  }

  lemma Be16Alone(x: nat)
    requires x < U16
    ensures ReadBe16(Be16(x)) == x
  {
    Be16RoundTrip(x, []);
    assert Be16(x) + [] == Be16(x);
    SmallMod(x, U16);
  }

  /** What is packed is one frame of the protocol with the server. */
  lemma PackedIsFrame(m: Message, id: nat)
    requires Valid(m) && id < U32
    ensures IsFrame(PACKET_HEAD, PackData(m, id))
  {
    DeclaredIsWritten(m);
    var len := DeclaredSize(m);
    HeadImage(m.kind, id, len);
    FrameOf(Packed(HeadFields(m.kind, id, len)), Packed(m.fields));
  }

  lemma FrameOf(head: seq<Byte>, body: seq<Byte>)
    requires |head| == PACKET_HEAD && |body| < U32 && head[12..16] == Be32(|body|)
    ensures IsFrame(PACKET_HEAD, head + body)
  {
    assert (head + body)[12..16] == head[12..16];
    Be32RoundTrip(|body|, []);
    assert Be32(|body|) + [] == Be32(|body|);
    SmallMod(|body|, U32);
  }

  /** The type tests tell the kinds apart, but for one. */
  lemma TypesDiffer(k: Kind, j: Kind)
    ensures (MsgType(k) == MsgType(j) && TestedType(k) == BodyType(j)) <==>
            (k == j && k != ConfirmAliveRsp) || (k == ConfirmAliveRsp && j == RegisterRsp)
  {
  }

  lemma HeadRead(m: Message, id: nat, rest: seq<Byte>)
    requires Valid(m) && id < U32
    ensures var head := HeadFields(m.kind, id, DeclaredSize(m));
            Unpack(HeadLayout(), Packed(head) + rest) == Some(Unpacked(head, rest)) && |Packed(head)| == PACKET_HEAD
  {
    DeclaredIsWritten(m);
    HeadFits(m.kind, id, DeclaredSize(m));
    HeadImage(m.kind, id, DeclaredSize(m));
    UnpackPacked(HeadFields(m.kind, id, DeclaredSize(m)), rest);
  }

  /** `UnPackHead` of a packed message: the id, the types and the length come back. */
  lemma UnPackHeadExact(m: Message, id: nat)
    requires Valid(m) && id < U32
    ensures var r := Unpack(HeadLayout(), PackData(m, id));
            && r.Some? && r.value.rest == Packed(m.fields) && |r.value.fields| == 6
            && r.value.fields[0] == Number(1, 0x66) && r.value.fields[1] == Number(2, 1)
            && r.value.fields[2] == Number(1, if IsResponse(m.kind) then 1 else 0)
            && r.value.fields[3] == Number(4, id)
            && r.value.fields[4] == Number(4, (if IsResponse(m.kind) then 0x02_0000 else 0x01_0000) + Operation(m.kind))
            && r.value.fields[5] == Number(4, |Packed(m.fields)|)
  {
    HeadRead(m, id, Packed(m.fields));
    DeclaredIsWritten(m);
  }

  /** What each body consists of. */
  lemma BodyExact(m: Message)
    requires Valid(m)
    ensures var f, s := m.fields, Packed(m.fields);
            match m.kind
            case RegisterReq | UnRegisterReq =>
              |f| == 2 && f[0].Name? && f[1].Host? && s == Strncpy(f[0].bytes, 64) + f[1].bytes
            case RegisterRsp =>
              && |f| == 3 && f[0].Number? && f[1].Name? && f[2].Text?
              && s == Be16(f[0].value) + (Strncpy(f[1].bytes, 64) + (Be16(|f[2].bytes|) + Strncpy(f[2].bytes, |f[2].bytes|)))
            case ConfirmAliveReq => |f| == 1 && f[0].Number? && f[0].value < 256 && s == [f[0].value]
            case ConfirmAliveRsp => |f| == 1 && f[0].Number? && s == Be16(f[0].value)
            case GetClientReq => |f| == 1 && f[0].Name? && s == Strncpy(f[0].bytes, 64)
            case GetClientRsp =>
              && |f| == 3 && f[0].Number? && f[1].Name? && f[2].Host?
              && s == Be16(f[0].value) + (Strncpy(f[1].bytes, 64) + f[2].bytes)
            case SendMsgReq =>
              && |f| == 3 && f[0].Name? && f[1].Name? && f[2].Blob?
              && s == Strncpy(f[0].bytes, 64) + (Strncpy(f[1].bytes, 64) + (Be32(|f[2].bytes|) + f[2].bytes))
            case SendMsgRsp =>
              && |f| == 2 && f[0].Number? && f[1].Text?
              && s == Be16(f[0].value) + (Be16(|f[1].bytes|) + Strncpy(f[1].bytes, |f[1].bytes|))
  {
    var f := m.fields;
    assert |f| == |Layout(m.kind)|;
    ShapeAt(f, 0);
    if |f| > 1 { ShapeAt(f, 1); }
    if |f| > 2 { ShapeAt(f, 2); }
    PackedParts(f);
  }

  lemma PackedOne(f: Field)
    ensures Packed([f]) == Image(f)
  {
    PackedStep(f, []);
    assert [f] + [] == [f] && Image(f) + [] == Image(f);
  }

  lemma PackedTwo(f: Field, g: Field)
    ensures Packed([f] + [g]) == Image(f) + Image(g)
  {
    PackedStep(f, [g]);
    PackedOne(g);
  }

  lemma PackedThree(f: Field, g: Field, k: Field)
    ensures Packed([f] + ([g] + [k])) == Image(f) + (Image(g) + Image(k))
  {
    PackedStep(f, [g] + [k]);
    PackedTwo(g, k);
  }

  lemma PackedParts(f: seq<Field>)
    ensures |f| == 1 ==> Packed(f) == Image(f[0])
    ensures |f| == 2 ==> Packed(f) == Image(f[0]) + Image(f[1])
    ensures |f| == 3 ==> Packed(f) == Image(f[0]) + (Image(f[1]) + Image(f[2]))
  {
    if |f| == 1 {
      PackedOne(f[0]);
      assert f == [f[0]];
    } else if |f| == 2 {
      PackedTwo(f[0], f[1]);
      assert f == [f[0]] + [f[1]];
    } else if |f| == 3 {
      PackedThree(f[0], f[1], f[2]);
      assert f == [f[0]] + ([f[1]] + [f[2]]);
    }
  }

  lemma WholeBody(m: Message)
    requires Valid(m)
    ensures Unchecked(m.kind, Packed(m.fields)) == Ok(AllCleared(m.fields))
  {
    UnpackPacked(m.fields, []);
    assert Packed(m.fields) + [] == Packed(m.fields);
  }

  lemma RegisterRspAsAlive(m: Message)
    requires Valid(m) && m.kind == RegisterRsp
    ensures m.fields != [] && Unchecked(ConfirmAliveRsp, Packed(m.fields)) == Ok([m.fields[0]])
  {
    assert |m.fields| == |Layout(RegisterRsp)|;
    ShapeAt(m.fields, 0);
    FirstNumber(m.fields, 2);
  }

  /** Exactly how `UnPackData` of a class ends on a whole message: it accepts those of
      its own kind, unchanged up to C-string meaning. The exception is
      `ConfirmAliveRsp`, which rejects its own messages and takes the return code of a
      `RegisterRsp`. A class without a tail that is told the length of a shorter
      message does not reject it but ends the process. */
  lemma UnPackDataExact(k: Kind, m: Message, id: nat, told: nat)
    requires Valid(m) && id < U32 && (told == 0 || told == |PackData(m, id)|)
    ensures DataOutcome(k, PackData(m, id), told) ==
            if Fixed(k) && told != 0 && |Packed(m.fields)| < FixedSize(k) then Aborts
            else if k == ConfirmAliveRsp then (if m.kind == RegisterRsp && m.fields != [] then Ok([m.fields[0]]) else Rejected)
            else if k == m.kind then Ok(AllCleared(m.fields))
            else Rejected
  {
    HeadRead(m, id, Packed(m.fields));
    assert |PackData(m, id)| == PACKET_HEAD + |Packed(m.fields)|;
    TypesTested(k, m, id);
    if k == ConfirmAliveRsp && m.kind == RegisterRsp {
      RegisterRspAsAlive(m);
    } else if k == m.kind {
      WholeBody(m);
    }
  }

  /** The head of a message passes the type tests of its own class, with one exception. */
  lemma TypesTested(k: Kind, m: Message, id: nat)
    ensures var head := HeadFields(m.kind, id, DeclaredSize(m));
            (head[2] == Number(1, MsgType(k)) && head[4] == Number(4, TestedType(k))) <==>
            (k == m.kind && k != ConfirmAliveRsp) || (k == ConfirmAliveRsp && m.kind == RegisterRsp)
  {
    TypesDiffer(k, m.kind);
  }

  lemma FirstNumber(fs: seq<Field>, w: nat)
    requires fs != [] && Fits(fs[0]) && ShapeOf(fs[0]) == ANumber(w)
    ensures Unpack([ANumber(w)], Packed(fs)) == Some(Unpacked([fs[0]], Packed(fs[1..])))
  {
    ReadImage(fs[0], Packed(fs[1..]));
    UnpackOne(ANumber(w), Packed(fs), Reading(fs[0], Packed(fs[1..])));
  }

  lemma UnpackOne(sh: Shape, s: seq<Byte>, r: Reading)
    requires Read(sh, s) == Some(r)
    ensures Unpack([sh], s) == Some(Unpacked([r.field], r.rest))
  {
    assert [sh][1..] == [];
    assert Unpack([], r.rest) == Some(Unpacked([], r.rest));
    assert [r.field] + [] == [r.field];
  }

  lemma FixedIsDeclared(m: Message)
    requires Valid(m)
    ensures Fixed(m.kind) ==> |Packed(m.fields)| == FixedSize(m.kind)
    ensures !Fixed(m.kind) ==> m.fields != [] && |Packed(m.fields)| == FixedSize(m.kind) + TailLength(m.fields)
  {
    DeclaredIsWritten(m);
    assert |m.fields| == |Layout(m.kind)|;
  }

  /** A body with a tail: the fields before it, then the tail's length, then the tail. */
  lemma TailShape(m: Message)
    requires Valid(m) && !Fixed(m.kind)
    ensures m.fields != []
    ensures var lead, last := m.fields[..|m.fields| - 1], m.fields[|m.fields| - 1];
            && Shapes(lead) == Lead(m.kind) && AllFit(lead) && Fits(last)
            && (last.Text? || last.Blob?) && LengthWidth(m.kind) == (if last.Text? then 2 else 4)
            && TailLength(m.fields) == |last.bytes|
            && Packed(m.fields) == Packed(lead) + Image(last)
            && FixedSize(m.kind) == |Packed(lead)| + LengthWidth(m.kind)
            && FirstTest(m.kind) >= |Packed(lead)|
  {
    var fs := m.fields;
    assert |fs| == |Layout(m.kind)|;
    var lead, last := fs[..|fs| - 1], fs[|fs| - 1];
    assert fs == lead + [last];
    PackedSplit(lead, last);
    ShapeAt(fs, |fs| - 1);
    TailKind(m.kind);
    assert Shapes(lead) == Shapes(fs)[..|fs| - 1];
    TailWidth(last);
    FixedIsDeclared(m);
  }

  lemma TailWidth(last: Field)
    requires Fits(last) && (last.Text? || last.Blob?)
    ensures |Image(last)| == (if last.Text? then 2 else 4) + |last.bytes|
  {
    ImageWidth(last);
  }

  lemma TailKind(k: Kind)
    requires !Fixed(k)
    ensures var l := Layout(k); var tail := l[|l| - 1];
            tail == (if k.SendMsgReq? then ABlob else AText) && FirstTest(k) >= FixedSize(k) - LengthWidth(k)
  {
  }

  lemma {:induction false} PackedSplit(lead: seq<Field>, last: Field)
    ensures Packed(lead + [last]) == Packed(lead) + Image(last)
    decreases |lead|
  {
    var fs := lead + [last];
    if lead == [] {
      assert fs[1..] == [] && Image(last) + [] == [] + Image(last);
    } else {
      assert fs[0] == lead[0] && fs[1..] == lead[1..] + [last];
      PackedSplit(lead[1..], last);
      Assoc(Image(lead[0]), Packed(lead[1..]), Image(last));
    }
  }

  /** The tests of a kind with a tail on a body cut at `told`, or whole. */
  lemma TailTests(m: Message, told: nat)
    requires Valid(m) && !Fixed(m.kind) && 0 < told <= |Packed(m.fields)|
    ensures BodyOutcome(m.kind, Packed(m.fields)[..told], told) ==
            if told < |Packed(m.fields)| then Rejected else Unchecked(m.kind, Packed(m.fields))
  {
    TailShape(m);
    FixedIsDeclared(m);
    var lead, last := m.fields[..|m.fields| - 1], m.fields[|m.fields| - 1];
    var data := Packed(m.fields)[..told];
    if told == |Packed(m.fields)| {
      assert data == Packed(m.fields);
    }
    if told >= FirstTest(m.kind) {
      var rest := Image(last)[..told - |Packed(lead)|];
      assert data == Packed(lead) + rest;
      UnpackPacked(lead, rest);
      if told >= FixedSize(m.kind) {
        TailLengthRead(last, told - |Packed(lead)|);
      }
    }
  }

  lemma TailLengthRead(last: Field, k: nat)
    requires Fits(last) && (last.Text? || last.Blob?)
    requires var w := if last.Text? then 2 else 4; w <= k <= |Image(last)|
    ensures var w := if last.Text? then 2 else 4; ReadNumber(w, Image(last)[..k]) == |last.bytes|
  {
    var n, w := |last.bytes|, if last.Text? then 2 else 4;
    var tail := if last.Text? then Strncpy(last.bytes, n) else last.bytes;
    assert Image(last) == Digits(w, n) + tail;
    CutBehind(Digits(w, n), tail, k);
    ReadDigits(w, n, tail[..k - w]);
  }

  lemma CutBehind(a: seq<Byte>, b: seq<Byte>, k: nat)
    requires |a| <= k <= |a| + |b|
    ensures (a + b)[..k] == a + b[..k - |a|]
  {
  }

  /** A whole body comes back, for every kind, whether its length is told or not. */
  lemma BodyRoundTrip(m: Message, told: nat)
    requires Valid(m) && (told == 0 || told == |Packed(m.fields)|)
    ensures BodyOutcome(m.kind, Packed(m.fields), told) == Ok(AllCleared(m.fields))
  {
    WholeBody(m);
    FixedIsDeclared(m);
    if told != 0 && !Fixed(m.kind) {
      TailTests(m, told);
      assert Packed(m.fields)[..told] == Packed(m.fields);
    }
  }

  /** A cut body whose length is told is rejected if and only if its kind has a tail and
      something is left of it. Of the other kinds a cut body ends the process, and a
      body cut to nothing is told as length 0 and read without any test. */
  lemma ToldCutExact(m: Message, k: nat)
    requires Valid(m) && k < |Packed(m.fields)|
    ensures BodyOutcome(m.kind, Packed(m.fields)[..k], k) ==
            if k == 0 then Overrun else if Fixed(m.kind) then Aborts else Rejected
  {
    FixedIsDeclared(m);
    if k == 0 {
      assert Packed(m.fields)[..0] == [];
      EmptyOverruns(Layout(m.kind));
    } else if !Fixed(m.kind) {
      TailTests(m, k);
    }
  }

  /** Without a told length no cut is ever rejected: it is read past its end, or, cut
      behind the NUL of its last C string, taken for the whole. */
  lemma UntoldCutExact(m: Message, k: nat)
    requires Valid(m) && k < |Packed(m.fields)|
    ensures m.fields != [] && BodyOutcome(m.kind, Packed(m.fields)[..k], 0) == Taken(CutResult(m.fields, k))
  {
    UntoldOutcome(m.kind, m.fields, k);
  }

  lemma UntoldOutcome(kind: Kind, fs: seq<Field>, k: nat)
    requires Shapes(fs) == Layout(kind) && AllFit(fs) && k < |Packed(fs)|
    ensures fs != [] && BodyOutcome(kind, Packed(fs)[..k], 0) == Taken(CutResult(fs, k))
  {
    UnpackCut(fs, k);
    UncheckedIs(kind, Shapes(fs), Packed(fs)[..k], CutResult(fs, k));
  }

  function Taken(u: Option<Unpacked>): Outcome {
    match u
    case None => Overrun
    case Some(x) => Ok(x.fields)
  }

  lemma UncheckedIs(k: Kind, shapes: seq<Shape>, data: seq<Byte>, u: Option<Unpacked>)
    requires Layout(k) == shapes && Unpack(shapes, data) == u
    ensures BodyOutcome(k, data, 0) == Taken(u)
  {
  }

  /** `UnPackData` tells its body no length. So its own class never rejects a message
      cut in the head: it ends the process, or reads on. */
  lemma CutHeadExact(m: Message, id: nat, k: nat, told: nat)
    requires Valid(m) && id < U32 && k < PACKET_HEAD && (told == 0 || told == k)
    ensures k <= |PackData(m, id)|
    ensures DataOutcome(m.kind, PackData(m, id)[..k], told) == if Fixed(m.kind) && told != 0 then Aborts else Overrun
  {
    var head := HeadFields(m.kind, id, DeclaredSize(m));
    HeadRead(m, id, []);
    CutFront(Packed(head), Packed(m.fields), k);
    DeclaredIsWritten(m);
    HeadCut(m.kind, id, DeclaredSize(m), k);
  }

  lemma CutFront(a: seq<Byte>, b: seq<Byte>, k: nat)
    requires k <= |a|
    ensures (a + b)[..k] == a[..k]
  {
  }

  lemma HeadCut(k: Kind, id: nat, len: nat, at: nat)
    requires id < U32 && len < U32 && at < PACKET_HEAD
    ensures at <= |Packed(HeadFields(k, id, len))| && Unpack(HeadLayout(), Packed(HeadFields(k, id, len))[..at]) == None
  {
    var head := HeadFields(k, id, len);
    HeadFits(k, id, len);
    HeadImage(k, id, len);
    NumberCut(head, at);
  }

  /** Numbers never end early. */
  lemma NumberCut(fs: seq<Field>, k: nat)
    requires AllFit(fs) && k < |Packed(fs)| && fs != [] && fs[|fs| - 1].Number?
    ensures Unpack(Shapes(fs), Packed(fs)[..k]) == None
  {
    UnpackCut(fs, k);
    CutResultMeans(fs, k);
  }

  /** Nor one that is cut in the body: that fares as without a told length. */
  lemma CutDataExact(m: Message, id: nat, k: nat, told: nat)
    requires Valid(m) && id < U32 && m.kind != ConfirmAliveRsp && k < |Packed(m.fields)|
    requires told == 0 || told == PACKET_HEAD + k
    ensures var data := Packed(HeadFields(m.kind, id, DeclaredSize(m))) + Packed(m.fields)[..k];
            DataOutcome(m.kind, data, told) ==
            if Fixed(m.kind) && told != 0 then Aborts else BodyOutcome(m.kind, Packed(m.fields)[..k], 0)
  {
    HeadRead(m, id, Packed(m.fields)[..k]);
    FixedIsDeclared(m);
    TypesDiffer(m.kind, m.kind);
  }

  /** Clearing keeps what every C string means, and everything else. */
  lemma ClearedMeans(f: Field)
    requires Fits(f)
    ensures match f
            case Name(b) => CString(Cleared(f).bytes) == CString(b)
            case Text(b) => CString(Cleared(f).bytes) == CString(b) && |Cleared(f).bytes| == |b|
            case _ => Cleared(f) == f
    ensures Cleared(Cleared(f)) == Cleared(f)
  {
    match f
    case Name(b) => StrncpyMeans(b); StrncpyTwice(b, |b|);
    case Text(b) => StrncpyMeans(b); StrncpyTwice(b, |b|);
    case _ =>
  }

  // ------------------------------------------------------------ the code

  /** `PackBody` and `PackHead`: field after field at a moving position. */
  method PackFields(data: array<Byte>, at: nat, fs: seq<Field>) returns (p: nat)
    requires at + |Packed(fs)| <= data.Length
    modifies data
    ensures p == at + |Packed(fs)|
    ensures data[..p] == old(data[..at]) + Packed(fs)
  {
    p := at;
    var left := fs;
    ghost var all := data[..at] + Packed(fs);
    while left != []
      modifies data
      invariant p <= data.Length && p + |Packed(left)| == at + |Packed(fs)|
      invariant data[..p] + Packed(left) == all
      decreases |left|
    {
      Assoc(data[..p], Image(left[0]), Packed(left[1..]));
      p := Codec.Copy(data, p, Image(left[0]));
      left := left[1..];
    }
    assert Packed(left) == [];
  }

  method PackMessage(m: Message, id: nat) returns (data: array<Byte>)
    requires Valid(m) && id < U32
    ensures fresh(data) && data[..] == PackData(m, id)
  {
    DeclaredIsWritten(m);
    var len := DeclaredSize(m);
    HeadImage(m.kind, id, len);
    data := new Byte[PACKET_HEAD + len];
    var p := PackFields(data, 0, HeadFields(m.kind, id, len));
    p := PackFields(data, p, m.fields);
    assert data[..p] == data[..];
    assert data[..] == [] + Packed(HeadFields(m.kind, id, len)) + Packed(m.fields);
  }

  /** Field after field, from a moving position; `None` if that runs past the data. */
  method ReadFields(shapes: seq<Shape>, data: seq<Byte>) returns (r: Option<Unpacked>)
    ensures r == Unpack(shapes, data)
  {
    var fields: seq<Field> := [];
    var left, p := shapes, data;
    ghost var all := Unpack(left, data);
    if all.Some? {
      assert [] + all.value.fields == all.value.fields;
    }
    while left != []
      invariant match Unpack(left, p) case None => all == None
                case Some(u) => all == Some(Unpacked(fields + u.fields, u.rest))
      decreases |left|
    {
      var r1 := Read(left[0], p);
      if r1 == None {
        return None;
      }
      ghost var rest := Unpack(left[1..], r1.value.rest);
      if rest.Some? {
        Assoc(fields, [r1.value.field], rest.value.fields);
      }
      fields := fields + [r1.value.field];
      left, p := left[1..], r1.value.rest;
    }
    assert fields + [] == fields;
    r := Some(Unpacked(fields, p));
  }

  /** `UnPackBody` of class `k`, told the length `told`. */
  method UnPackBody(k: Kind, data: seq<Byte>, told: nat) returns (r: Outcome)
    ensures r == BodyOutcome(k, data, told)
  {
    if told != 0 && Fixed(k) && told < FixedSize(k) {
      return Aborts;
    }
    if told != 0 && !Fixed(k) {
      if told < FirstTest(k) {
        return Rejected;
      }
      var lead := ReadFields(Lead(k), data);
      if lead == None {
        return Overrun;
      }
      if told < FixedSize(k) {
        return Rejected;
      }
      if |lead.value.rest| < LengthWidth(k) {
        return Overrun;
      }
      var n := ReadNumber(LengthWidth(k), lead.value.rest);
      if told < FixedSize(k) + n {
        return Rejected;
      }
    }
    var all := ReadFields(Layout(k), data);
    r := if all == None then Overrun else Ok(all.value.fields);
  }
}
