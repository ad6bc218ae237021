/** What the JSON parser accepts and returns (3rd_tools/jsoncpp/json_reader.cpp), as
    functions from the text still to be read to a result and the text left over.
    The parser's own loops are in JsonReader.dfy. */
module JsonSyntax {
  import opened JsonValues

  datatype Kind =
    | EndOfStream | ObjectBegin | ObjectEnd | ArrayBegin | ArrayEnd | StringToken | NumberToken
    | TrueToken | FalseToken | NullToken | Comma | Colon | Comment | Bad

  /** A token's characters and the text after it. */
  datatype Token = Token(kind: Kind, text: string, rest: string)

  predicate IsSpace(c: char) { c == ' ' || c == '\t' || c == '\r' || c == '\n' }

  function SkipSpaces(s: string): (r: string)
    ensures |r| <= |s|
  {
    if s != [] && IsSpace(s[0]) then SkipSpaces(s[1..]) else s
  }

  predicate IsDigit(c: char) { '0' <= c <= '9' }

  predicate IsNumberChar(c: char) { IsDigit(c) || c == '.' || c == 'e' || c == 'E' || c == '+' || c == '-' }

  /** How many characters of a number token `s` starts with. */
  function NumberLen(s: string): (n: nat)
    ensures n <= |s|
  {
    if s != [] && IsNumberChar(s[0]) then 1 + NumberLen(s[1..]) else 0
  }

  /** A scan that stops after `len` characters, successfully or not. */
  datatype Scan = Scan(ok: bool, len: nat)

  function After(n: nat, r: Scan): Scan { Scan(r.ok, n + r.len) }

  /** The rest of a string token, up to and including its closing quote. */
  function ScanString(s: string): (r: Scan)
    ensures r.len <= |s|
    decreases |s|
  {
    if s == [] then Scan(false, 0)
    else if s[0] == '\\' then
      if |s| == 1 then Scan(false, 1) else After(2, ScanString(s[2..]))
    else if s[0] == '"' then Scan(true, 1)
    else After(1, ScanString(s[1..]))
  }

  /** After slash-star: up to and including the closing star-slash. */
  function ScanCStyle(s: string): (r: Scan)
    ensures r.len <= |s|
  {
    if s == [] then Scan(false, 0)
    else if s[0] == '*' && |s| > 1 && s[1] == '/' then Scan(true, 2)
    else After(1, ScanCStyle(s[1..]))
  }

  /** After two slashes: up to and including the end of the line. */
  function ScanLine(s: string): (n: nat)
    ensures n <= |s|
  {
    if s == [] then 0
    else if s[0] == '\r' || s[0] == '\n' then 1
    else 1 + ScanLine(s[1..])
  }

  function ScanComment(s: string): (r: Scan)
    ensures r.len <= |s|
  {
    if s == [] then Scan(false, 0)
    else if s[0] == '*' then After(1, ScanCStyle(s[1..]))
    else if s[0] == '/' then Scan(true, 1 + ScanLine(s[1..]))
    else Scan(false, 1)
  }

  function ScanWord(s: string, word: string): (r: Scan)
    ensures r.len <= |s|
  {
    if word <= s then Scan(true, |word|) else Scan(false, 0)
  }

  /** Kind and length of the token at the front of `s`, which starts with no space. */
  function Lex(s: string): (r: (Kind, nat))
    ensures r.1 <= |s|
    ensures s != [] ==> r.1 >= 1
    ensures s == [] ==> r.0 == EndOfStream
  {
    if s == [] then (EndOfStream, 0)
    else
      var c, t := s[0], s[1..];
      if c == '{' then (ObjectBegin, 1)
      else if c == '}' then (ObjectEnd, 1)
      else if c == '[' then (ArrayBegin, 1)
      else if c == ']' then (ArrayEnd, 1)
      else if c == ',' then (Comma, 1)
      else if c == ':' then (Colon, 1)
      else if c == '\0' then (EndOfStream, 1)
      else if IsDigit(c) || c == '-' then (NumberToken, 1 + NumberLen(t))
      else if c == '"' then Scanned(StringToken, ScanString(t))
      else if c == '/' then Scanned(Comment, ScanComment(t))
      else if c == 't' then Scanned(TrueToken, ScanWord(t, "rue"))
      else if c == 'f' then Scanned(FalseToken, ScanWord(t, "alse"))
      else if c == 'n' then Scanned(NullToken, ScanWord(t, "ull"))
      else (Bad, 1)
  }

  function Scanned(kind: Kind, r: Scan): (Kind, nat) {
    (if r.ok then kind else Bad, 1 + r.len)
  }

  function ReadToken(s: string): (t: Token)
    ensures |t.rest| <= |s|
    ensures t.kind != EndOfStream ==> |t.rest| < |s|
  {
    var u := SkipSpaces(s);
    var (kind, n) := Lex(u);
    Token(kind, u[..n], u[n..])
  }

  function SkipComments(s: string): (t: Token)
    ensures |t.rest| <= |s|
    ensures t.kind != EndOfStream ==> |t.rest| < |s|
    ensures t.kind != Comment
    decreases |s|
  {
    var t := ReadToken(s);
    if t.kind == Comment then SkipComments(t.rest) else t
  }

  // ------------------------------------------------------------- strings

  datatype Option<+T> = None | Some(value: T)

  function HexDigit(c: char): (d: Option<nat>)
    ensures d.Some? ==> d.value < 16
  {
    if IsDigit(c) then Some(c as int - '0' as int)
    else if 'a' <= c <= 'f' then Some(c as int - 'a' as int + 10)
    else if 'A' <= c <= 'F' then Some(c as int - 'A' as int + 10)
    else None
  }

  /** The four hexadecimal digits after backslash-u. */
  function Hex4(s: string): (d: Option<nat>)
    ensures d.Some? ==> d.value < 0x1_0000 && |s| >= 4
  {
    if |s| < 4 then None
    else match (HexDigit(s[0]), HexDigit(s[1]), HexDigit(s[2]), HexDigit(s[3]))
      case (Some(a), Some(b), Some(c), Some(d)) => Some(((a * 16 + b) * 16 + c) * 16 + d)
      case _ => None
  }

  datatype CodePoint = CodePoint(code: nat, used: nat)

  /** A code point from one escape, or from two if the first is a high surrogate. */
  function ReadCodePoint(s: string): (r: Option<CodePoint>)
    ensures r.Some? ==> r.value.code <= 0x10_FFFF && 0 < r.value.used <= |s|
  {
    match Hex4(s)
    case None => None
    case Some(high) =>
      if !(0xD800 <= high <= 0xDBFF) then Some(CodePoint(high, 4))
      else if |s| < 10 || s[4] != '\\' || s[5] != 'u' then None
      else match Hex4(s[6..])
        case None => None
        case Some(low) => Some(CodePoint(0x1_0000 + high % 0x400 * 0x400 + low % 0x400, 10))
  }

  /** UTF-8, one character per byte. */
  function Utf8(cp: nat): string
    requires cp <= 0x10_FFFF
  {
    if cp <= 0x7F then [cp as char]
    else if cp <= 0x7FF then [(0xC0 + cp / 0x40) as char, (0x80 + cp % 0x40) as char]
    else if cp <= 0xFFFF then
      [(0xE0 + cp / 0x1000) as char, (0x80 + cp / 0x40 % 0x40) as char, (0x80 + cp % 0x40) as char]
    else
      [(0xF0 + cp / 0x4_0000) as char, (0x80 + cp / 0x1000 % 0x40) as char,
       (0x80 + cp / 0x40 % 0x40) as char, (0x80 + cp % 0x40) as char]
  }

  function SimpleEscape(c: char): Option<char> {
    if c == '"' || c == '/' || c == '\\' then Some(c)
    else if c == 'b' then Some(8 as char)
    else if c == 'f' then Some(12 as char)
    else if c == 'n' then Some('\n')
    else if c == 'r' then Some('\r')
    else if c == 't' then Some('\t')
    else None
  }

  function Cons(s: string, r: Option<string>): Option<string> {
    match r case None => None case Some(t) => Some(s + t)
  }

  /** `decodeString` on the characters between the quotes. */
  function Decode(s: string): (r: Option<string>)
    decreases |s|
  {
    if s == [] || s[0] == '"' then Some([])
    else if s[0] != '\\' then Cons([s[0]], Decode(s[1..]))
    else if |s| == 1 then None
    else if s[1] == 'u' then
      (match ReadCodePoint(s[2..])
       case None => None
       case Some(p) => Cons(Utf8(p.code), Decode(s[2 + p.used..])))
    else
      (match SimpleEscape(s[1])
       case None => None
       case Some(c) => Cons([c], Decode(s[2..])))
  }

  /** `decodeString` on a string token, quotes included. */
  function DecodeToken(text: string): Option<string> {
    if |text| < 2 then None else Decode(text[1..|text| - 1])
  }

  // ------------------------------------------------------------- numbers

  datatype Number = Whole(n: nat) | Double | NotANumber

  /** The digit loop: accumulate while the value so far is below the threshold. */
  function Accumulate(s: string, value: nat, threshold: nat): Number {
    if s == [] then Whole(value)
    else if !IsDigit(s[0]) then NotANumber
    else if value >= threshold then Double
    else Accumulate(s[1..], value * 10 + (s[0] as int - '0' as int), threshold)
  }

  predicate LooksReal(text: string) {
    exists i :: 0 <= i < |text| &&
      (text[i] == '.' || text[i] == 'e' || text[i] == 'E' || text[i] == '+' || (text[i] == '-' && i > 0))
  }

  function Threshold(negative: bool): nat {
    (if negative then -MIN_INT else MAX_UINT) / 10
  }

  /** `decodeDouble`: `scan` says which texts `sscanf("%lf")` accepts. */
  function DecodeDouble(scan: string -> bool, text: string): Option<Value> {
    if scan(text) then Some(Real(text)) else None
  }

  function DecodeNumber(scan: string -> bool, text: string): Option<Value> {
    if LooksReal(text) then DecodeDouble(scan, text)
    else
      var negative := text != [] && text[0] == '-';
      match Accumulate(if negative then text[1..] else text, 0, Threshold(negative))
      case NotANumber => None
      case Double => DecodeDouble(scan, text)
      case Whole(n) => Some(if negative then Int(0 - n) else if n <= MAX_INT then Int(n) else UInt(n))
  }

  // -------------------------------------------------------------- values

  /** A value and the text after it; every failure of the parser ends the parse. */
  datatype Read = Got(value: Value, rest: string) | Failed

  function Leaf(v: Option<Value>, rest: string): Read {
    match v case None => Failed case Some(x) => Got(x, rest)
  }

  function ReadValue(scan: string -> bool, s: string): (r: Read)
    ensures r.Got? ==> |r.rest| < |s|
    decreases |s|, 2
  {
    var t := SkipComments(s);
    match t.kind
    case ObjectBegin => ReadMembers(scan, t.rest, [], "")
    case ArrayBegin =>
      var u := SkipSpaces(t.rest);
      if u != [] && u[0] == ']' then Got(Arr([]), u[1..]) else ReadItems(scan, u, [])
    case NumberToken => Leaf(DecodeNumber(scan, t.text), t.rest)
    case StringToken =>
      (match DecodeToken(t.text) case None => Failed case Some(d) => Got(Str(CString(d)), t.rest))
    case TrueToken => Got(Bool(true), t.rest)
    case FalseToken => Got(Bool(false), t.rest)
    case NullToken => Got(Null, t.rest)
    case _ => Failed
  }

  /** The loop of `readArray`: after a value any token other than `]` counts as a
      separator. */
  function ReadItems(scan: string -> bool, s: string, items: seq<Value>): (r: Read)
    ensures r.Got? ==> |r.rest| < |s|
    decreases |s|, 3
  {
    match ReadValue(scan, s)
    case Failed => Failed
    case Got(v, rest) =>
      var t := SkipComments(rest);
      if t.kind == ArrayEnd then Got(Arr(items + [v]), t.rest)
      else ReadItems(scan, t.rest, items + [v])
  }

  /** The front of a turn of the loop of `readObject`: a member's name and colon,
      or the closing brace. */
  datatype Name = Named(name: string, rest: string) | Closed(rest: string) | Broken

  /** A closing brace is taken in place of a member while the previous member's
      name `prev` is empty. */
  function ReadName(s: string, prev: string): (r: Name)
    ensures !r.Broken? ==> |r.rest| < |s|
  {
    var t := SkipComments(s);
    if t.kind == ObjectEnd && prev == "" then Closed(t.rest)
    else if t.kind != StringToken then Broken
    else match DecodeToken(t.text)
      case None => Broken
      case Some(name) =>
        var colon := ReadToken(t.rest);
        if colon.kind != Colon then Broken else Named(name, colon.rest)
  }

  /** What follows a member: a comma, or the closing brace; after a comment any
      token counts as a comma. */
  function ReadSeparator(s: string): (r: Option<Token>)
    ensures r.Some? ==> |r.value.rest| <= |s|
  {
    var c := ReadToken(s);
    if c.kind == Comment then Some(SkipComments(c.rest))
    else if c.kind == ObjectEnd || c.kind == Comma then Some(c)
    else None
  }

  /** What one turn of the loop of `readObject` leads to. */
  datatype Turn = Stop(result: Read) | Go(rest: string, members: seq<Member>, name: string)

  function ReadMember(scan: string -> bool, s: string, members: seq<Member>, prev: string): (r: Turn)
    ensures r.Stop? && r.result.Got? ==> |r.result.rest| < |s|
    ensures r.Go? ==> |r.rest| < |s|
    decreases |s|, 0
  {
    match ReadName(s, prev)
    case Closed(rest) => Stop(Got(Obj(members), rest))
    case Broken => Stop(Failed)
    case Named(name, value) => ReadMemberValue(scan, value, members, name)
  }

  /** The value of a member, and what separates it from the next. */
  function ReadMemberValue(scan: string -> bool, s: string, members: seq<Member>, name: string): (r: Turn)
    ensures r.Stop? && r.result.Got? ==> |r.result.rest| < |s|
    ensures r.Go? ==> |r.rest| < |s|
    decreases |s|, 3
  {
    match ReadValue(scan, s)
    case Failed => Stop(Failed)
    case Got(v, rest) =>
      match ReadSeparator(rest)
      case None => Stop(Failed)
      case Some(e) =>
        var more := Put(members, CString(name), v);
        if e.kind == ObjectEnd then Stop(Got(Obj(more), e.rest)) else Go(e.rest, more, name)
  }

  function ReadMembers(scan: string -> bool, s: string, members: seq<Member>, name: string): (r: Read)
    ensures r.Got? ==> |r.rest| < |s|
    decreases |s|, 1
  {
    match ReadMember(scan, s, members, name)
    case Stop(r) => r
    case Go(rest, more, next) => ReadMembers(scan, rest, more, next)
  }

  /** `Reader::parse` on a whole document; what follows the value is ignored. */
  function Parse(scan: string -> bool, document: string): Option<Value> {
    match ReadValue(scan, document) case Failed => None case Got(v, _) => Some(v)
  }
}
