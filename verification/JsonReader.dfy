/** The JSON parser itself (3rd_tools/jsoncpp/json_reader.cpp): a cursor that its loops
    move over the document, proved to compute the functions of JsonSyntax. */
module JsonReaders {
  import opened JsonValues
  import opened JsonSyntax

  class Reader {
    const document: string
    const scan: string -> bool
    var current: nat

    ghost predicate Ok()
      reads this
    {
      current <= |document|
    }

    /** The text still to be read. */
    ghost function Left(): string
      requires Ok()
      reads this
    {
      document[current..]
    }

    constructor (text: string, scanner: string -> bool)
      ensures Ok() && Left() == text && scan == scanner
    {
      document, scan, current := text, scanner, 0;
    }

    method SkipBlanks()
      requires Ok()
      modifies this
      ensures Ok() && Left() == SkipSpaces(old(Left())) && current >= old(current)
    {
      ghost var goal, left := SkipSpaces(Left()), Left();
      while current < |document| && IsSpace(document[current])
        invariant Ok() && current >= old(current)
        invariant left == Left() && SkipSpaces(left) == goal
      {
        assert left[1..] == document[current + 1..];
        current := current + 1;
        left := document[current..];
      }
    }

    /** `match`: compare from the last character back, then step over. */
    method Matches(pattern: string) returns (ok: bool)
      requires Ok()
      modifies this
      ensures Ok() && current >= old(current) && ScanWord(old(Left()), pattern) == Scan(ok, current - old(current))
    {
      if |document| - current < |pattern| {
        return false;
      }
      var index := |pattern|;
      while index > 0
        invariant 0 <= index <= |pattern|
        invariant forall j :: index <= j < |pattern| ==> document[current + j] == pattern[j]
        modifies {}
      {
        index := index - 1;
        if document[current + index] != pattern[index] {
          assert document[current..][index] != pattern[index];
          return false;
        }
      }
      assert pattern == Left()[..|pattern|];
      current := current + |pattern|;
      ok := true;
    }

    method PassNumber()
      requires Ok()
      modifies this
      ensures Ok() && current == old(current) + NumberLen(old(Left()))
    {
      ghost var goal, left := current + NumberLen(Left()), Left();
      while current < |document| && IsNumberChar(document[current])
        invariant Ok() && left == Left() && current + NumberLen(left) == goal
      {
        assert left[1..] == document[current + 1..];
        current := current + 1;
        left := document[current..];
      }
    }

    /** `readString`: to the closing quote, skipping what a backslash protects. */
    method PassString() returns (ok: bool)
      requires Ok()
      modifies this
      ensures Ok() && current >= old(current) && ScanString(old(Left())) == Scan(ok, current - old(current))
    {
      ghost var all, left := ScanString(Left()), Left();
      while current < |document|
        invariant Ok() && current >= old(current) && left == Left()
        invariant After(current - old(current), ScanString(left)) == all
        decreases |document| - current
      {
        var c := document[current];
        assert left[1..] == document[current + 1..];
        current := current + 1;
        if c == '\\' {
          if current < |document| {
            assert left[2..] == document[current + 1..];
            current := current + 1;
          }
        } else if c == '"' {
          return true;
        }
        left := document[current..];
      }
      ok := false;
    }

    method PassCStyle() returns (ok: bool)
      requires Ok()
      modifies this
      ensures Ok() && current >= old(current) && ScanCStyle(old(Left())) == Scan(ok, current - old(current))
    {
      ghost var all, left := ScanCStyle(Left()), Left();
      while current < |document|
        invariant Ok() && current >= old(current) && left == Left()
        invariant After(current - old(current), ScanCStyle(left)) == all
        decreases |document| - current
      {
        var c := document[current];
        assert left[1..] == document[current + 1..];
        current := current + 1;
        if c == '*' && current < |document| && document[current] == '/' {
          current := current + 1;
          return true;
        }
        left := document[current..];
      }
      ok := false;
    }

    method PassLine()
      requires Ok()
      modifies this
      ensures Ok() && current == old(current) + ScanLine(old(Left()))
    {
      ghost var goal, left := current + ScanLine(Left()), Left();
      while current < |document|
        invariant Ok() && left == Left() && current + ScanLine(left) == goal
        decreases |document| - current
      {
        var c := document[current];
        assert left[1..] == document[current + 1..];
        current := current + 1;
        if c == '\r' || c == '\n' {
          return;
        }
        left := document[current..];
      }
    }

    method PassComment() returns (ok: bool)
      requires Ok()
      modifies this
      ensures Ok() && current >= old(current) && ScanComment(old(Left())) == Scan(ok, current - old(current))
    {
      if current == |document| {
        return false;
      }
      var c := document[current];
      assert Left()[1..] == document[current + 1..];
      current := current + 1;
      if c == '*' {
        ok := PassCStyle();
      } else if c == '/' {
        PassLine();
        ok := true;
      } else {
        ok := false;
      }
    }

    /** `readToken`: kind of the next token and where it starts; it ends at the
        cursor. */
    method NextToken() returns (kind: Kind, start: nat)
      requires Ok()
      modifies this
      ensures Ok() && old(current) <= start <= current
      ensures ReadToken(old(Left())) == Token(kind, document[start..current], Left())
      ensures kind != EndOfStream ==> current > old(current)
    {
      ghost var whole := Left();
      SkipBlanks();
      start := current;
      ghost var s := Left();
      kind := LexNext();
      TokenFrom(whole, s, kind, current - start);
      Slices(document, start, current);
    }

    method LexNext() returns (kind: Kind)
      requires Ok()
      modifies this
      ensures Ok() && current >= old(current) && Lex(old(Left())) == (kind, current - old(current))
      ensures kind != EndOfStream ==> current > old(current)
    {
      if current == |document| {
        return EndOfStream;
      }
      var c := document[current];
      assert Left()[0] == c && Left()[1..] == document[current + 1..];
      current := current + 1;
      var ok := true;
      if c == '{' { kind := ObjectBegin; }
      else if c == '}' { kind := ObjectEnd; }
      else if c == '[' { kind := ArrayBegin; }
      else if c == ']' { kind := ArrayEnd; }
      else if c == ',' { kind := Comma; }
      else if c == ':' { kind := Colon; }
      else if c == '\0' { kind := EndOfStream; }
      else if IsDigit(c) || c == '-' { kind := NumberToken; PassNumber(); }
      else if c == '"' { kind := StringToken; ok := PassString(); }
      else if c == '/' { kind := Comment; ok := PassComment(); }
      else if c == 't' { kind := TrueToken; ok := Matches("rue"); }
      else if c == 'f' { kind := FalseToken; ok := Matches("alse"); }
      else if c == 'n' { kind := NullToken; ok := Matches("ull"); }
      else { kind, ok := Bad, false; }
      if !ok {
        kind := Bad;
      }
    }

    /** `skipCommentTokens`. */
    method NextSolidToken() returns (kind: Kind, start: nat)
      requires Ok()
      modifies this
      ensures Ok() && old(current) <= start <= current
      ensures SkipComments(old(Left())) == Token(kind, document[start..current], Left())
      ensures kind != EndOfStream ==> current > old(current)
    {
      ghost var all := SkipComments(Left());
      kind, start := NextToken();
      while kind == Comment
        invariant Ok() && old(current) <= start <= current
        invariant kind == Comment ==> SkipComments(Left()) == all
        invariant kind != Comment ==> all == Token(kind, document[start..current], Left())
        invariant kind != EndOfStream ==> current > old(current)
        decreases |document| - current, kind == Comment
      {
        kind, start := NextToken();
      }
    }
  }

  lemma TokenFrom(whole: string, s: string, kind: Kind, n: nat)
    requires s == SkipSpaces(whole) && Lex(s) == (kind, n)
    ensures n <= |s| && ReadToken(whole) == Token(kind, s[..n], s[n..])
  {
  }

  lemma Slices(text: string, from: nat, to: nat)
    requires from <= to <= |text|
    ensures text[from..][..to - from] == text[from..to] && text[from..][to - from..] == text[to..]
  {
  }

  /** `decodeUnicodeEscapeSequence`: four hexadecimal digits from position `at`. */
  method ReadHex4(s: string, at: nat) returns (r: Option<nat>)
    requires at <= |s|
    ensures r == Hex4(s[at..])
  {
    if |s| - at < 4 {
      return None;
    }
    ghost var t := s[at..];
    assert t[0] == s[at] && t[1] == s[at + 1] && t[2] == s[at + 2] && t[3] == s[at + 3];
    var unicode := 0;
    var index := 0;
    while index < 4
      invariant 0 <= index <= 4
      invariant forall j :: 0 <= j < index ==> HexDigit(t[j]).Some?
      invariant unicode == Hex(t, index)
    {
      var d := HexDigit(s[at + index]);
      assert d == HexDigit(t[index]);
      if d.None? {
        return None;
      }
      unicode := unicode * 16 + d.value;
      index := index + 1;
    }
    assert Hex(t, 2) == Hex(t, 1) * 16 + HexDigit(t[1]).value && Hex(t, 1) == HexDigit(t[0]).value;
    r := Some(unicode);
  }

  /** The value of the first `n` hexadecimal digits of `t`. */
  ghost function Hex(t: string, n: nat): nat
    requires n <= 4 <= |t|
  {
    if n == 0 then 0
    else Hex(t, n - 1) * 16 + (match HexDigit(t[n - 1]) case None => 0 case Some(d) => d)
  }

  method ReadUnicode(s: string, at: nat) returns (r: Option<CodePoint>)
    requires at <= |s|
    ensures r == ReadCodePoint(s[at..])
  {
    var high := ReadHex4(s, at);
    if high.None? {
      return None;
    }
    if !(0xD800 <= high.value <= 0xDBFF) {
      return Some(CodePoint(high.value, 4));
    }
    ghost var t := s[at..];
    if |s| - (at + 4) < 6 {
      return None;
    }
    assert t[4] == s[at + 4] && t[5] == s[at + 5] && t[6..] == s[at + 6..];
    if s[at + 4] != '\\' || s[at + 5] != 'u' {
      return None;
    }
    var low := ReadHex4(s, at + 6);
    if low.None? {
      return None;
    }
    r := Some(CodePoint(0x1_0000 + high.value % 0x400 * 0x400 + low.value % 0x400, 10));
  }

  lemma ConsAssoc(a: string, b: string, r: Option<string>)
    ensures Cons(a + b, r) == Cons(a, Cons(b, r))
  {
    if r.Some? {
      assert (a + b) + r.value == a + (b + r.value);
    }
  }

  lemma ConsDone(a: string)
    ensures Cons(a, Some([])) == Some(a)
  {
    assert a + [] == a;
  }

  /** `decodeString` on the characters between the quotes. */
  method DecodeLoop(s: string) returns (r: Option<string>)
    ensures r == Decode(s)
  {
    var decoded := "";
    var i := 0;
    ghost var all, left := Decode(s), s;
    assert Cons("", all) == all by { if all.Some? { assert "" + all.value == all.value; } }
    while i < |s|
      invariant 0 <= i <= |s| && left == s[i..]
      invariant Cons(decoded, Decode(left)) == all
      decreases |s| - i
    {
      var c := s[i];
      assert left[0] == c && left[1..] == s[i + 1..];
      var piece: string;
      if c == '"' {
        ConsDone(decoded);
        return Some(decoded);
      } else if c != '\\' {
        piece := [c];
        i := i + 1;
      } else if i + 1 == |s| {
        return None;
      } else if s[i + 1] == 'u' {
        assert left[2..] == s[i + 2..];
        var p := ReadUnicode(s, i + 2);
        if p.None? {
          return None;
        }
        piece := Utf8(p.value.code);
        assert left[2 + p.value.used..] == s[i + 2 + p.value.used..];
        i := i + 2 + p.value.used;
      } else {
        assert left[2..] == s[i + 2..];
        var e := SimpleEscape(s[i + 1]);
        if e.None? {
          return None;
        }
        piece := [e.value];
        i := i + 2;
      }
      assert Decode(left) == Cons(piece, Decode(s[i..]));
      ConsAssoc(decoded, piece, Decode(s[i..]));
      decoded := decoded + piece;
      left := s[i..];
    }
    ConsDone(decoded);
    r := Some(decoded);
  }

  /** `decodeNumber`: 32-bit accumulation, which `AccumulateNeverWraps` shows is
      never reduced. */
  method DecodeNumberLoop(scan: string -> bool, text: string) returns (r: Option<Value>)
    ensures r == DecodeNumber(scan, text)
  {
    var isDouble := false;
    var i := 0;
    while i < |text|
      invariant 0 <= i <= |text|
      invariant isDouble == LooksReal(text[..i])
    {
      assert text[..i + 1] == text[..i] + [text[i]];
      RealAppend(text, i);
      isDouble := isDouble || text[i] == '.' || text[i] == 'e' || text[i] == 'E' || text[i] == '+' || (text[i] == '-' && i != 0);
      i := i + 1;
    }
    assert text[..i] == text;
    if isDouble {
      return DecodeDouble(scan, text);
    }
    var at := 0;
    var negative := |text| > 0 && text[0] == '-';
    if negative {
      at := 1;
    }
    var threshold := Threshold(negative);
    var value: nat := 0;
    ghost var all, left := Accumulate(text[at..], 0, threshold), text[at..];
    assert left == if negative then text[1..] else text;
    while at < |text|
      invariant 0 <= at <= |text| && left == text[at..] && value <= MAX_UINT
      invariant Accumulate(left, value, threshold) == all
    {
      var c := text[at];
      assert left[0] == c && left[1..] == text[at + 1..];
      at := at + 1;
      if c < '0' || c > '9' {
        return None;
      }
      if value >= threshold {
        return DecodeDouble(scan, text);
      }
      value := (value * 10 + (c as int - '0' as int)) % 0x1_0000_0000;
      left := text[at..];
    }
    if negative {
      r := Some(Int(0 - value));
    } else if value <= MAX_INT {
      r := Some(Int(value));
    } else {
      r := Some(UInt(value));
    }
  }

  lemma RealAppend(text: string, i: nat)
    requires i < |text|
    ensures LooksReal(text[..i + 1]) <==>
            LooksReal(text[..i]) || text[i] == '.' || text[i] == 'e' || text[i] == 'E' || text[i] == '+'
            || (text[i] == '-' && i != 0)
  {
    var a, b := text[..i], text[..i + 1];
    assert forall j :: 0 <= j < i ==> a[j] == b[j];
    assert b[i] == text[i];
  }

  class Parser {
    const reader: Reader

    constructor (text: string, scan: string -> bool)
      ensures fresh(reader) && reader.Ok() && reader.Left() == text && reader.scan == scan
    {
      reader := new Reader(text, scan);
    }

    /** `readValue`. */
    method ParseValue() returns (ok: bool, value: Value)
      requires reader.Ok()
      modifies reader
      ensures reader.Ok()
      ensures ReadValue(reader.scan, old(reader.Left())) == if ok then Got(value, reader.Left()) else Failed
      ensures reader.current >= old(reader.current) && (ok ==> reader.current > old(reader.current))
      decreases |reader.document| - reader.current, 1
    {
      var kind, start := reader.NextSolidToken();
      value, ok := Null, true;
      match kind
      case ObjectBegin => ok, value := ParseObject();
      case ArrayBegin => ok, value := ParseArray();
      case NumberToken =>
        var n := DecodeNumberLoop(reader.scan, reader.document[start..reader.current]);
        if n.Some? { value := n.value; } else { ok := false; }
      case StringToken =>
        var text := reader.document[start..reader.current];
        var d: Option<string> := None;
        if |text| >= 2 {
          d := DecodeLoop(text[1..|text| - 1]);
        }
        if d.Some? { value := Str(CString(d.value)); } else { ok := false; }
      case TrueToken => value := Bool(true);
      case FalseToken => value := Bool(false);
      case NullToken => value := Null;
      case _ => ok := false;
    }

    /** `readArray`, after the opening bracket. */
    method ParseArray() returns (ok: bool, value: Value)
      requires reader.Ok()
      modifies reader
      ensures reader.Ok() && reader.current >= old(reader.current)
      ensures var u := SkipSpaces(old(reader.Left()));
              (if u != [] && u[0] == ']' then Got(Arr([]), u[1..]) else ReadItems(reader.scan, u, []))
              == if ok then Got(value, reader.Left()) else Failed
      decreases |reader.document| - reader.current, 2
    {
      reader.SkipBlanks();
      ghost var u := reader.Left();
      value := Null;
      if reader.current < |reader.document| && reader.document[reader.current] == ']' {
        reader.current := reader.current + 1;
        assert u[1..] == reader.Left();
        return true, Arr([]);
      }
      var items: seq<Value> := [];
      ghost var all := ReadItems(reader.scan, u, []);
      while true
        invariant reader.Ok() && reader.current >= old(reader.current)
        invariant ReadItems(reader.scan, reader.Left(), items) == all
        decreases |reader.document| - reader.current
      {
        ghost var left := reader.Left();
        var fine, v := ParseValue();
        if !fine {
          return false, value;
        }
        items := items + [v];
        var kind, start := reader.NextSolidToken();
        if kind == ArrayEnd {
          return true, Arr(items);
        }
      }
    }

    /** `readObject`, after the opening brace. */
    method ParseObject() returns (ok: bool, value: Value)
      requires reader.Ok()
      modifies reader
      ensures reader.Ok() && reader.current >= old(reader.current)
      ensures ReadMembers(reader.scan, old(reader.Left()), [], "") == if ok then Got(value, reader.Left()) else Failed
      decreases |reader.document| - reader.current, 2
    {
      value := Null;
      var members: seq<Member> := [];
      var name := "";
      ghost var all := ReadMembers(reader.scan, reader.Left(), [], "");
      ghost var left := reader.Left();
      while true
        invariant reader.Ok() && reader.current >= old(reader.current) && left == reader.Left()
        invariant ReadMembers(reader.scan, left, members, name) == all
        decreases |reader.document| - reader.current
      {
        var r := ParseMember(members, name);
        left := reader.Left();
        match r
        case Ended(fine, v) => return fine, v;
        case Next(more, n) => members, name := more, n;
      }
    }

    /** One turn of the loop of `readObject`. */
    method ParseMember(members: seq<Member>, name: string) returns (r: Outcome)
      requires reader.Ok()
      modifies reader
      ensures reader.Ok() && reader.current >= old(reader.current)
      ensures ReadMember(reader.scan, old(reader.Left()), members, name)
              == match r
                 case Ended(ok, v) => Stop(if ok then Got(v, reader.Left()) else Failed)
                 case Next(more, n) => Go(reader.Left(), more, n)
      ensures r.Next? ==> reader.current > old(reader.current)
      decreases |reader.document| - reader.current, 1
    {
      var broken, closed, next := ParseName(name);
      if broken {
        return Ended(false, Null);
      }
      if closed {
        return Ended(true, Obj(members));
      }
      r := ParseMemberValue(members, next);
    }

    method ParseMemberValue(members: seq<Member>, name: string) returns (r: Outcome)
      requires reader.Ok()
      modifies reader
      ensures reader.Ok() && reader.current >= old(reader.current)
      ensures ReadMemberValue(reader.scan, old(reader.Left()), members, name)
              == match r
                 case Ended(ok, v) => Stop(if ok then Got(v, reader.Left()) else Failed)
                 case Next(more, n) => Go(reader.Left(), more, n)
      decreases |reader.document| - reader.current, 3
    {
      var fine, v := ParseValue();
      if !fine {
        return Ended(false, Null);
      }
      var good, kind := ParseSeparator();
      if !good {
        return Ended(false, Null);
      }
      var more := Put(members, CString(name), v);
      if kind == ObjectEnd {
        return Ended(true, Obj(more));
      }
      r := Next(more, name);
    }

    method ParseName(prev: string) returns (broken: bool, closed: bool, name: string)
      requires reader.Ok()
      modifies reader
      ensures reader.Ok() && reader.current >= old(reader.current)
      ensures ReadName(old(reader.Left()), prev)
              == if broken then Broken else if closed then Closed(reader.Left()) else Named(name, reader.Left())
      ensures !broken ==> reader.current > old(reader.current)
    {
      broken, closed, name := true, false, "";
      var kind, start := reader.NextSolidToken();
      if kind == ObjectEnd && prev == "" {
        return false, true, "";
      }
      if kind != StringToken {
        return;
      }
      var text := reader.document[start..reader.current];
      var d: Option<string> := None;
      if |text| >= 2 {
        d := DecodeLoop(text[1..|text| - 1]);
      }
      if d.None? {
        return;
      }
      kind, start := reader.NextToken();
      if kind != Colon {
        return;
      }
      return false, false, d.value;
    }

    method ParseSeparator() returns (good: bool, kind: Kind)
      requires reader.Ok()
      modifies reader
      ensures reader.Ok() && reader.current >= old(reader.current)
      ensures var s := ReadSeparator(old(reader.Left()));
              good == s.Some? && (good ==> s.value.kind == kind && s.value.rest == reader.Left())
    {
      var start;
      kind, start := reader.NextToken();
      if kind != ObjectEnd && kind != Comma && kind != Comment {
        return false, kind;
      }
      if kind == Comment {
        kind, start := reader.NextSolidToken();
      }
      good := true;
    }
  }

  /** What one turn of the object loop decided. */
  datatype Outcome = Ended(ok: bool, value: Value) | Next(members: seq<Member>, name: string)

  /** `Reader::parse`. */
  method ParseDocument(text: string, scan: string -> bool) returns (r: Option<Value>)
    ensures r == Parse(scan, text)
  {
    var p := new Parser(text, scan);
    var ok, v := p.ParseValue();
    r := if ok then Some(v) else None;
  }
}
