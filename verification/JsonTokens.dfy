/** What the tokenizer and the string decoder of the JSON parser
    (3rd_tools/jsoncpp/json_reader.cpp) accept, said without their loops. */
module JsonTokens {
  import opened JsonValues
  import opened JsonSyntax

  // ------------------------------------------------------------- scanners

  predicate Blank(s: string) { forall c :: c in s ==> c == ' ' || c == '\t' || c == '\r' || c == '\n' }

  /** Leading blanks are skipped, all of them and nothing else. */
  lemma {:induction false} SkipSpacesExact(s: string)
    ensures var r := SkipSpaces(s);
            && s[|s| - |r|..] == r && Blank(s[..|s| - |r|])
            && (r != [] ==> r[0] != ' ' && r[0] != '\t' && r[0] != '\r' && r[0] != '\n')
  {
    if s != [] && IsSpace(s[0]) {
      var t, r := s[1..], SkipSpaces(s);
      SkipSpacesExact(t);
      assert s == [s[0]] + t;
      var k := |t| - |r|;
      assert s[..k + 1] == [s[0]] + t[..k];
    }
  }

  lemma {:induction false} SkipBlanks(blank: string, s: string)
    requires Blank(blank)
    ensures SkipSpaces(blank + s) == SkipSpaces(s)
  {
    if blank == [] {
      assert blank + s == s;
    } else {
      assert blank[0] in blank && forall c :: c in blank[1..] ==> c in blank;
      SkipBlanks(blank[1..], s);
      assert (blank + s)[1..] == blank[1..] + s;
    }
  }

  lemma {:induction false} SkipTwice(s: string)
    ensures SkipSpaces(SkipSpaces(s)) == SkipSpaces(s)
  {
    if s != [] && IsSpace(s[0]) {
      SkipTwice(s[1..]);
    }
  }

  /** A number token goes on as long as its characters do. */
  lemma {:induction false} NumberLenExact(s: string)
    ensures var n := NumberLen(s);
            && (forall c :: c in s[..n] ==> '0' <= c <= '9' || c in ".eE+-")
            && (n < |s| ==> !('0' <= s[n] <= '9') && s[n] !in ".eE+-")
  {
    if s != [] && IsNumberChar(s[0]) {
      NumberLenExact(s[1..]);
      var n := NumberLen(s);
      assert s[..n] == [s[0]] + s[1..][..n - 1];
      assert n < |s| ==> s[n] == s[1..][n - 1];
    }
  }

  /** Characters between the quotes of a string token: a quote only after a
      backslash, and no backslash without a character after it. */
  predicate Enclosed(s: string)
    decreases |s|
  {
    s == [] || (if s[0] == '\\' then |s| >= 2 && Enclosed(s[2..]) else s[0] != '"' && Enclosed(s[1..]))
  }

  /** A string token ends at the first quote that is not escaped; without one the
      whole text is used up. */
  lemma {:induction false} ScanStringExact(s: string, n: nat)
    ensures ScanString(s) == Scan(true, n) <==> 1 <= n <= |s| && s[n - 1] == '"' && Enclosed(s[..n - 1])
    ensures !ScanString(s).ok ==> ScanString(s).len == |s|
    decreases |s|
  {
    if s != [] {
      var k := if s[0] == '\\' then 2 else 1;
      if s[0] == '"' && n >= 2 && n <= |s| {
        assert s[..n - 1][0] == '"';
      }
      if s[0] != '"' && |s| >= k {
        ScanStringExact(s[k..], if n >= k then n - k else 0);
        if k < n <= |s| {
          EnclosedTail(s, k, n - 1);
          assert s[k..][n - k - 1] == s[n - 1];
        } else if n == 2 && k == 2 {
          assert !Enclosed(s[..1]) by { assert s[..1][0] == '\\'; }
        }
      } else if s[0] == '\\' && n == 1 {
        assert s[n - 1] != '"';
      }
    }
  }

  lemma EnclosedTail(s: string, k: nat, n: nat)
    requires k <= n <= |s| && n > 0 && s[0] != '"' && k == if s[0] == '\\' then 2 else 1
    ensures Enclosed(s[..n]) <==> Enclosed(s[k..][..n - k])
  {
    assert s[..n][k..] == s[k..][..n - k] && s[..n][0] == s[0];
  }

  /** A comment of the first kind ends with the first star-slash; without one the
      whole text is used up. */
  lemma {:induction false} ScanCStyleExact(s: string)
    ensures var r := ScanCStyle(s);
            && (forall i :: 0 <= i && i + 2 < r.len ==> !(s[i] == '*' && s[i + 1] == '/'))
            && (if r.ok then r.len >= 2 && s[r.len - 2] == '*' && s[r.len - 1] == '/'
                else r.len == |s| && forall i :: 0 <= i < |s| - 1 ==> !(s[i] == '*' && s[i + 1] == '/'))
  {
    if s != [] && !(s[0] == '*' && |s| > 1 && s[1] == '/') {
      var t, r := s[1..], ScanCStyle(s);
      ScanCStyleExact(t);
      assert forall i :: 0 < i < |s| ==> s[i] == t[i - 1];
    }
  }

  /** A comment of the second kind ends with its line. */
  lemma {:induction false} ScanLineExact(s: string)
    ensures var n := ScanLine(s);
            && (forall i :: 0 <= i < n - 1 ==> s[i] != '\r' && s[i] != '\n')
            && (n == |s| || (n > 0 && (s[n - 1] == '\r' || s[n - 1] == '\n')))
  {
    if s != [] && s[0] != '\r' && s[0] != '\n' {
      var t := s[1..];
      ScanLineExact(t);
      assert forall i :: 0 < i < |s| ==> s[i] == t[i - 1];
    }
  }

  // ---------------------------------------------------------------- UTF-8

  /** A byte that goes on with a character: its six bits. */
  function Six(c: char): (r: Option<nat>)
    ensures r.Some? ==> r.value < 0x40
  {
    if 0x80 <= c as int < 0xC0 then Some(c as int - 0x80) else None
  }

  /** The code point at the front of UTF-8 text and the number of its bytes
      (section 3 of RFC 3629), the shortest form only. */
  function FromUtf8(s: string): Option<CodePoint> {
    if s == [] then None
    else
      var a := s[0] as int;
      if a < 0x80 then Some(CodePoint(a, 1))
      else if 0xC0 <= a < 0xE0 && |s| >= 2 && Six(s[1]).Some? then
        Shortest((a - 0xC0) * 0x40 + Six(s[1]).value, 2, 0x80)
      else if 0xE0 <= a < 0xF0 && |s| >= 3 && Six(s[1]).Some? && Six(s[2]).Some? then
        Shortest((a - 0xE0) * 0x1000 + Six(s[1]).value * 0x40 + Six(s[2]).value, 3, 0x800)
      else if 0xF0 <= a < 0xF8 && |s| >= 4 && Six(s[1]).Some? && Six(s[2]).Some? && Six(s[3]).Some? then
        Shortest((a - 0xF0) * 0x4_0000 + Six(s[1]).value * 0x1000 + Six(s[2]).value * 0x40 + Six(s[3]).value, 4, 0x1_0000)
      else None
  }

  function Shortest(code: nat, bytes: nat, least: nat): Option<CodePoint> {
    if code >= least then Some(CodePoint(code, bytes)) else None
  }

  /** `cp` in digits of six bits. */
  lemma Sixes(cp: nat)
    ensures cp == cp / 0x40 * 0x40 + cp % 0x40
    ensures cp == cp / 0x1000 * 0x1000 + cp / 0x40 % 0x40 * 0x40 + cp % 0x40
  {
    var q := cp / 0x40;
    assert q / 0x40 == cp / 0x1000;
    assert q == q / 0x40 * 0x40 + q % 0x40;
  }

  lemma Sixes4(cp: nat)
    ensures cp == cp / 0x4_0000 * 0x4_0000 + cp / 0x1000 % 0x40 * 0x1000 + cp / 0x40 % 0x40 * 0x40 + cp % 0x40
  {
    Sixes(cp);
    var q := cp / 0x1000;
    assert q / 0x40 == cp / 0x4_0000;
    assert q == q / 0x40 * 0x40 + q % 0x40;
  }

  lemma TwoBytes(cp: nat, t: string)
    requires 0x7F < cp <= 0x7FF
    ensures FromUtf8(Utf8(cp) + t) == Some(CodePoint(cp, 2)) && |Utf8(cp)| == 2
  {
    var u := Utf8(cp);
    var s := u + t;
    assert s[0] == u[0] && s[1] == u[1];
    assert Six(s[1]) == Some(cp % 0x40);
    Sixes(cp);
  }

  lemma ThreeBytes(cp: nat, t: string)
    requires 0x7FF < cp <= 0xFFFF
    ensures FromUtf8(Utf8(cp) + t) == Some(CodePoint(cp, 3)) && |Utf8(cp)| == 3
  {
    var u := Utf8(cp);
    var s := u + t;
    var x, y, z := cp / 0x1000, cp / 0x40 % 0x40, cp % 0x40;
    assert s[0] == u[0] == (0xE0 + x) as char && s[1] == u[1] && s[2] == u[2];
    assert Six(s[1]) == Some(y) && Six(s[2]) == Some(z);
    Sixes(cp);
    Joined3(s, x, y, z);
  }

  lemma Joined3(s: string, x: nat, y: nat, z: nat)
    requires |s| >= 3 && x < 0x10 && s[0] == (0xE0 + x) as char && Six(s[1]) == Some(y) && Six(s[2]) == Some(z)
    ensures FromUtf8(s) == Shortest(x * 0x1000 + y * 0x40 + z, 3, 0x800)
  {
  }

  lemma FourBytes(cp: nat, t: string)
    requires 0xFFFF < cp <= 0x10_FFFF
    ensures FromUtf8(Utf8(cp) + t) == Some(CodePoint(cp, 4)) && |Utf8(cp)| == 4
  {
    var u := Utf8(cp);
    var s := u + t;
    var w, x, y, z := cp / 0x4_0000, cp / 0x1000 % 0x40, cp / 0x40 % 0x40, cp % 0x40;
    assert s[0] == u[0] == (0xF0 + w) as char && s[1] == u[1] && s[2] == u[2] && s[3] == u[3];
    assert Six(s[1]) == Some(x) && Six(s[2]) == Some(y) && Six(s[3]) == Some(z);
    Sixes4(cp);
    Joined4(s, w, x, y, z);
  }

  lemma Joined4(s: string, w: nat, x: nat, y: nat, z: nat)
    requires |s| >= 4 && w < 8 && s[0] == (0xF0 + w) as char
    requires Six(s[1]) == Some(x) && Six(s[2]) == Some(y) && Six(s[3]) == Some(z)
    ensures FromUtf8(s) == Shortest(w * 0x4_0000 + x * 0x1000 + y * 0x40 + z, 4, 0x1_0000)
  {
  }

  /** A UTF-8 reader gets every code point back, whatever follows it. */
  lemma Utf8RoundTrip(cp: nat, t: string)
    requires cp <= 0x10_FFFF
    ensures FromUtf8(Utf8(cp) + t) == Some(CodePoint(cp, |Utf8(cp)|))
  {
    if cp <= 0x7F {
      assert (Utf8(cp) + t)[0] == cp as char;
    } else if cp <= 0x7FF {
      TwoBytes(cp, t);
    } else if cp <= 0xFFFF {
      ThreeBytes(cp, t);
    } else {
      FourBytes(cp, t);
    }
  }

  // -------------------------------------------------------------- escapes

  /** The sixteen digits, in either case. */
  lemma HexDigitExact(c: char, d: nat)
    ensures HexDigit(c) == Some(d) <==> d < 16 && (c == "0123456789abcdef"[d] || c == "0123456789ABCDEF"[d])
  {
    if d < 10 {
      assert "0123456789abcdef"[d] == "0123456789ABCDEF"[d] == ('0' as int + d) as char;
    } else if d < 16 {
      assert "0123456789abcdef"[d] == ('a' as int + (d - 10)) as char;
      assert "0123456789ABCDEF"[d] == ('A' as int + (d - 10)) as char;
    }
  }

  /** One piece of a string: a plain character, an escape of one letter, a code
      unit, or a surrogate pair, the last two by their hexadecimal digits. */
  datatype Piece = Plain(c: char) | Short(c: char) | Unit(hex: string) | Pair(high: string, low: string)

  predicate IsHigh(hex: string) { |hex| == 4 && Hex4(hex).Some? && 0xD800 <= Hex4(hex).value <= 0xDBFF }

  predicate Good(p: Piece) {
    match p
    case Plain(c) => c != '"' && c != '\\'
    case Short(c) => c in "\"\\/bfnrt"
    case Unit(hex) => |hex| == 4 && Hex4(hex).Some? && !IsHigh(hex)
    case Pair(high, low) => IsHigh(high) && |low| == 4 && Hex4(low).Some?
  }

  function PieceText(p: Piece): string {
    match p
    case Plain(c) => [c]
    case Short(c) => ['\\', c]
    case Unit(hex) => ['\\', 'u'] + hex
    case Pair(high, low) => ['\\', 'u'] + high + ['\\', 'u'] + low
  }

  /** What a piece stands for (section 7 of RFC 8259). */
  function PieceMeaning(p: Piece): string
    requires Good(p)
  {
    match p
    case Plain(c) => [c]
    case Short(c) =>
      (match c
       case 'b' => [8 as char]
       case 'f' => [12 as char]
       case 'n' => [10 as char]
       case 'r' => [13 as char]
       case 't' => [9 as char]
       case _ => [c])
    case Unit(hex) => Utf8(Hex4(hex).value)
    case Pair(high, low) => Utf8(0x1_0000 + (Hex4(high).value - 0xD800) * 0x400 + Hex4(low).value % 0x400)
  }

  predicate AllGood(ps: seq<Piece>) { forall p :: p in ps ==> Good(p) }

  function PiecesText(ps: seq<Piece>): string {
    if ps == [] then [] else PieceText(ps[0]) + PiecesText(ps[1..])
  }

  function PiecesMeaning(ps: seq<Piece>): string
    requires AllGood(ps)
  {
    if ps == [] then [] else PieceMeaning(ps[0]) + PiecesMeaning(ps[1..])
  }

  lemma DecodePlain(c: char, t: string)
    requires c != '"' && c != '\\'
    ensures Decode([c] + t) == Cons([c], Decode(t)) && (Enclosed([c] + t) <==> Enclosed(t))
  {
    assert ([c] + t)[1..] == t;
  }

  lemma DecodeShort(c: char, t: string)
    requires Good(Short(c))
    ensures Decode(['\\', c] + t) == Cons(PieceMeaning(Short(c)), Decode(t)) && (Enclosed(['\\', c] + t) <==> Enclosed(t))
  {
    assert (['\\', c] + t)[2..] == t;
  }

  /** Four hexadecimal digits are found at the front of whatever follows them. */
  lemma Hex4Front(hex: string, t: string)
    requires |hex| == 4
    ensures Hex4(hex + t) == Hex4(hex)
  {
    assert forall i :: 0 <= i < 4 ==> (hex + t)[i] == hex[i];
  }

  lemma HexEnclosed(hex: string, t: string)
    requires |hex| == 4 && Hex4(hex).Some?
    ensures Enclosed(['\\', 'u'] + hex + t) <==> Enclosed(t)
  {
    var s := hex + t;
    assert (['\\', 'u'] + hex + t)[2..] == s;
    assert forall i :: 0 <= i < 4 ==> s[i] == hex[i] && HexDigit(hex[i]).Some?;
    assert s[1..][1..] == s[2..] && s[2..][1..] == s[3..] && s[3..][1..] == t;
    assert Enclosed(s) <==> Enclosed(s[1..]);
    assert Enclosed(s[1..]) <==> Enclosed(s[2..]);
    assert Enclosed(s[2..]) <==> Enclosed(s[3..]);
  }

  lemma DecodeUnit(hex: string, t: string)
    requires Good(Unit(hex))
    ensures Decode(PieceText(Unit(hex)) + t) == Cons(PieceMeaning(Unit(hex)), Decode(t))
    ensures Enclosed(PieceText(Unit(hex)) + t) <==> Enclosed(t)
  {
    var s := ['\\', 'u'] + hex + t;
    Hex4Front(hex, t);
    assert s[2..] == hex + t && s[6..] == t;
    HexEnclosed(hex, t);
  }

  /** A high surrogate takes the next escape with it. */
  lemma ReadPair(high: string, low: string, t: string)
    requires Good(Pair(high, low))
    ensures ReadCodePoint(high + (['\\', 'u'] + (low + t)))
            == Some(CodePoint(0x1_0000 + (Hex4(high).value - 0xD800) * 0x400 + Hex4(low).value % 0x400, 10))
  {
    var u := high + (['\\', 'u'] + (low + t));
    Hex4Front(high, ['\\', 'u'] + (low + t));
    Hex4Front(low, t);
    assert u[6..] == low + t && u[4] == '\\' && u[5] == 'u';
    var h := Hex4(high).value;
    assert h % 0x400 == h - 0xD800;
  }

  lemma PairSplit(high: string, low: string, t: string)
    requires |high| == 4 && |low| == 4
    ensures var s := PieceText(Pair(high, low)) + t;
            && |s| >= 12 && s[0] == '\\' && s[1] == 'u' && s[2..] == high + (['\\', 'u'] + (low + t)) && s[12..] == t
            && s == ['\\', 'u'] + high + (['\\', 'u'] + low + t)
  {
  }

  /** How the decoder takes a unicode escape. */
  lemma DecodeUnicode(s: string, code: nat, used: nat, t: string)
    requires |s| >= 2 && s[0] == '\\' && s[1] == 'u' && ReadCodePoint(s[2..]) == Some(CodePoint(code, used))
    requires 2 + used <= |s| && s[2 + used..] == t
    ensures code <= 0x10_FFFF && Decode(s) == Cons(Utf8(code), Decode(t))
  {
  }

  lemma DecodePair(high: string, low: string, t: string)
    requires Good(Pair(high, low))
    ensures Decode(PieceText(Pair(high, low)) + t) == Cons(PieceMeaning(Pair(high, low)), Decode(t))
    ensures Enclosed(PieceText(Pair(high, low)) + t) <==> Enclosed(t)
  {
    var s := PieceText(Pair(high, low)) + t;
    PairSplit(high, low, t);
    ReadPair(high, low, t);
    DecodeUnicode(s, 0x1_0000 + (Hex4(high).value - 0xD800) * 0x400 + Hex4(low).value % 0x400, 10, t);
    HexEnclosed(low, t);
    HexEnclosed(high, ['\\', 'u'] + low + t);
  }

  lemma DecodePiece(p: Piece, t: string)
    requires Good(p)
    ensures Decode(PieceText(p) + t) == Cons(PieceMeaning(p), Decode(t))
    ensures Enclosed(PieceText(p) + t) <==> Enclosed(t)
  {
    match p
    case Plain(c) => DecodePlain(c, t);
    case Short(c) => DecodeShort(c, t);
    case Unit(hex) => DecodeUnit(hex, t);
    case Pair(high, low) => DecodePair(high, low, t);
  }

  /** The decoder gives every string of pieces its meaning. */
  lemma {:induction false} DecodePieces(ps: seq<Piece>)
    requires AllGood(ps)
    ensures Decode(PiecesText(ps)) == Some(PiecesMeaning(ps)) && Enclosed(PiecesText(ps))
  {
    if ps != [] {
      assert ps[0] in ps;
      DecodePieces(ps[1..]);
      DecodePiece(ps[0], PiecesText(ps[1..]));
    }
  }

  /** The first piece of a text that decodes. */
  lemma FirstPiece(s: string) returns (p: Piece, t: string)
    requires s != [] && Enclosed(s) && Decode(s).Some?
    ensures Good(p) && s == PieceText(p) + t && Enclosed(t) && Decode(t).Some?
  {
    if s[0] != '\\' {
      p, t := Plain(s[0]), s[1..];
    } else if s[1] != 'u' {
      p, t := Short(s[1]), s[2..];
    } else {
      p, t := FirstUnicode(s);
    }
    DecodePiece(p, t);
  }

  lemma FirstUnicode(s: string) returns (p: Piece, t: string)
    requires |s| >= 2 && s[0] == '\\' && s[1] == 'u' && Decode(s).Some?
    ensures Good(p) && s == PieceText(p) + t
  {
    var hex := s[2..6];
    Hex4Front(hex, s[6..]);
    assert s[2..] == hex + s[6..];
    if IsHigh(hex) {
      var low := s[8..12];
      Hex4Front(low, s[12..]);
      assert s[2..][6..] == low + s[12..];
      p, t := Pair(hex, low), s[12..];
    } else {
      p, t := Unit(hex), s[6..];
    }
  }

  lemma {:induction false} DecodedIsPieces(s: string) returns (ps: seq<Piece>)
    requires Enclosed(s) && Decode(s).Some?
    ensures AllGood(ps) && PiecesText(ps) == s
    decreases |s|
  {
    if s == [] {
      ps := [];
    } else {
      var p, t := FirstPiece(s);
      var rest := DecodedIsPieces(t);
      ps := [p] + rest;
      assert ps[1..] == rest;
    }
  }

  /** What stands between the quotes decodes to `t` exactly if it is written in
      plain characters and well-formed escapes that stand for `t`. */
  lemma DecodeExact(s: string, t: string)
    requires Enclosed(s)
    ensures Decode(s) == Some(t) <==> exists ps :: AllGood(ps) && PiecesText(ps) == s && PiecesMeaning(ps) == t
  {
    if Decode(s).Some? {
      var ps := DecodedIsPieces(s);
      DecodePieces(ps);
    }
    forall ps | AllGood(ps) && PiecesText(ps) == s ensures Decode(s) == Some(PiecesMeaning(ps)) {
      DecodePieces(ps);
    }
  }

  /** The escape of a code point: itself, or above 16 bits its surrogate pair. */
  function UnicodeEscape(cp: nat): string
    requires cp <= 0x10_FFFF
  {
    if cp <= 0xFFFF then ['\\', 'u'] + HexText(cp)
    else ['\\', 'u'] + HexText(HighUnit(cp - 0x1_0000)) + ['\\', 'u'] + HexText(LowUnit(cp - 0x1_0000))
  }

  /** The surrogates of the code point `k` above the first 16-bit range. */
  function HighUnit(k: nat): (h: nat)
    requires k <= 0xF_FFFF
    ensures h <= 0xDBFF
  {
    0xD800 + k / 0x400
  }

  function LowUnit(k: nat): (l: nat)
    ensures l <= 0xDFFF
  {
    0xDC00 + k % 0x400
  }

  function HexText(n: nat): string
    requires n <= 0xFFFF
  {
    var d := "0123456789ABCDEF";
    [d[n / 0x1000], d[n / 0x100 % 16], d[n / 16 % 16], d[n % 16]]
  }

  lemma HexTextBack(n: nat)
    requires n <= 0xFFFF
    ensures Hex4(HexText(n)) == Some(n)
  {
    var h := HexText(n);
    var a, b, c, d := n / 0x1000, n / 0x100 % 16, n / 16 % 16, n % 16;
    FourDigits(n);
    HexDigitExact(h[0], a);
    HexDigitExact(h[1], b);
    HexDigitExact(h[2], c);
    HexDigitExact(h[3], d);
    HexOf(h, a, b, c, d);
  }

  lemma HexOf(h: string, a: nat, b: nat, c: nat, d: nat)
    requires |h| == 4
    requires HexDigit(h[0]) == Some(a) && HexDigit(h[1]) == Some(b) && HexDigit(h[2]) == Some(c) && HexDigit(h[3]) == Some(d)
    ensures Hex4(h) == Some(((a * 16 + b) * 16 + c) * 16 + d)
  {
  }

  lemma FourDigits(n: nat)
    ensures n == ((n / 0x1000 * 16 + n / 0x100 % 16) * 16 + n / 16 % 16) * 16 + n % 16
  {
    var p, q := n / 16, n / 0x100;
    assert q == p / 16 && n / 0x1000 == q / 16;
    assert n == p * 16 + n % 16 && p == q * 16 + p % 16 && q == q / 16 * 16 + q % 16;
  }

  /** An escaped code point is read as the UTF-8 bytes of that code point; a high
      surrogate on its own is not one. */
  lemma CodePointRoundTrip(cp: nat)
    requires cp <= 0x10_FFFF && !(0xD800 <= cp <= 0xDBFF)
    ensures Decode(UnicodeEscape(cp)).Some?
    ensures FromUtf8(Decode(UnicodeEscape(cp)).value) == Some(CodePoint(cp, |Decode(UnicodeEscape(cp)).value|))
  {
    var p := PieceOf(cp);
    OnePiece(p, cp);
    Utf8RoundTrip(cp, []);
    assert Utf8(cp) + [] == Utf8(cp);
  }

  lemma PieceOf(cp: nat) returns (p: Piece)
    requires cp <= 0x10_FFFF && !(0xD800 <= cp <= 0xDBFF)
    ensures Good(p) && PieceText(p) == UnicodeEscape(cp) && PieceMeaning(p) == Utf8(cp)
  {
    if cp <= 0xFFFF {
      p := UnitOf(cp);
    } else {
      p := PairOf(cp);
    }
  }

  lemma UnitMeaning(hex: string, cp: nat)
    requires |hex| == 4 && Hex4(hex) == Some(cp) && !(0xD800 <= cp <= 0xDBFF)
    ensures Good(Unit(hex)) && PieceMeaning(Unit(hex)) == Utf8(cp)
  {
  }

  lemma Units(k: nat)
    requires k <= 0xF_FFFF
    ensures 0xD800 <= HighUnit(k) && (HighUnit(k) - 0xD800) * 0x400 + LowUnit(k) % 0x400 == k
  {
  }

  lemma UnitOf(cp: nat) returns (p: Piece)
    requires cp <= 0xFFFF && !(0xD800 <= cp <= 0xDBFF)
    ensures Good(p) && PieceText(p) == UnicodeEscape(cp) && PieceMeaning(p) == Utf8(cp)
  {
    HexTextBack(cp);
    p := Unit(HexText(cp));
    UnitMeaning(HexText(cp), cp);
  }

  lemma PairOf(cp: nat) returns (p: Piece)
    requires 0x1_0000 <= cp <= 0x10_FFFF
    ensures Good(p) && PieceText(p) == UnicodeEscape(cp) && PieceMeaning(p) == Utf8(cp)
  {
    var k := cp - 0x1_0000;
    var high, low := HexText(HighUnit(k)), HexText(LowUnit(k));
    HexTextBack(HighUnit(k));
    HexTextBack(LowUnit(k));
    p := Pair(high, low);
    PairMeaning(high, low, k);
  }

  lemma PairMeaning(high: string, low: string, k: nat)
    requires k <= 0xF_FFFF && |high| == 4 && |low| == 4
    requires Hex4(high) == Some(HighUnit(k)) && Hex4(low) == Some(LowUnit(k))
    ensures Good(Pair(high, low)) && PieceMeaning(Pair(high, low)) == Utf8(0x1_0000 + k)
  {
    Units(k);
  }

  lemma OnePiece(p: Piece, cp: nat)
    requires cp <= 0x10_FFFF && Good(p) && PieceMeaning(p) == Utf8(cp)
    ensures Decode(PieceText(p)) == Some(Utf8(cp))
  {
    DecodePiece(p, []);
    assert PieceText(p) + [] == PieceText(p) && Utf8(cp) + [] == Utf8(cp);
  }
}
