/** Printing a value and parsing the text gives the value back. */
module JsonRoundTrip {
  import opened JsonValues
  import opened JsonSyntax
  import W = JsonWriters

  /** A token known by its kind and length is what the tokenizer returns. */
  lemma TokenAt(kind: Kind, text: string, rest: string)
    requires text != [] && !IsSpace(text[0]) && kind != Comment
    requires Lex(text + rest) == (kind, |text|)
    ensures ReadToken(text + rest) == SkipComments(text + rest) == Token(kind, text, rest)
  {
    var s := text + rest;
    assert s[0] == text[0];
    assert s[..|text|] == text && s[|text|..] == rest;
  }

  // ------------------------------------------------------------- strings

  /** Reading back one written character (section 7 of RFC 8259). */
  lemma DecodeEscape(c: char, t: string)
    ensures Decode(W.Escape(c) + t) == Cons([c], Decode(t))
  {
    var e := W.Escape(c);
    var s := e + t;
    if |e| == 1 {
      assert s[1..] == t;
    } else if |e| == 2 {
      assert s[2..] == t;
    } else {
      var u := s[2..];
      assert u[..4] == e[2..6] && u[4..] == t;
      HexBack(c as int / 16);
      HexBack(c as int % 16);
      assert Hex4(u) == Some(c as int);
      assert s[6..] == t;
    }
  }

  lemma HexBack(d: nat)
    requires d < 16
    ensures HexDigit(W.HexUpper(d)) == Some(d)
  {
  }

  lemma {:induction false} DecodeEscaped(s: string)
    ensures Decode(W.Escaped(s)) == Some(s)
  {
    if s != [] {
      DecodeEscaped(s[1..]);
      DecodeEscape(s[0], W.Escaped(s[1..]));
      assert s == [s[0]] + s[1..];
    }
  }

  lemma ScanEscape(c: char, t: string)
    ensures ScanString(W.Escape(c) + t) == After(|W.Escape(c)|, ScanString(t))
  {
    var e := W.Escape(c);
    var s := e + t;
    if |e| == 1 {
      assert s[1..] == t;
    } else if |e| == 2 {
      assert s[2..] == t;
    } else {
      ScanPlain(e[2..6], t);
      assert s[2..] == e[2..6] + t;
    }
  }

  lemma {:induction false} ScanPlain(p: string, t: string)
    requires forall c :: c in p ==> c != '\\' && c != '"'
    ensures ScanString(p + t) == After(|p|, ScanString(t))
  {
    if p == [] {
      assert p + t == t;
    } else {
      assert p[0] in p && forall c :: c in p[1..] ==> c in p;
      ScanPlain(p[1..], t);
      assert (p + t)[1..] == p[1..] + t;
    }
  }

  lemma {:induction false} ScanEscaped(s: string, post: string)
    ensures ScanString(W.Escaped(s) + (['"'] + post)) == Scan(true, |W.Escaped(s)| + 1)
  {
    var close := ['"'] + post;
    if s == [] {
      assert W.Escaped(s) + close == close;
    } else {
      ScanEscaped(s[1..], post);
      ScanEscape(s[0], W.Escaped(s[1..]) + close);
      W.AppendTwo(W.Escape(s[0]), W.Escaped(s[1..]), close);
    }
  }

  /** A written string is one token, and the token decodes to the string. */
  lemma StringIsToken(s: string, post: string)
    ensures ReadToken(W.Quoted(s) + post) == SkipComments(W.Quoted(s) + post) == Token(StringToken, W.Quoted(s), post)
    ensures DecodeToken(W.Quoted(s)) == Some(s)
  {
    var e, q := W.Escaped(s), W.Quoted(s);
    DecodeEscaped(s);
    assert q[1..|q| - 1] == e;
    ScanEscaped(s, post);
    QuotedSplit(e, post);
    assert (q + post)[0] == '"';
    TokenAt(StringToken, q, post);
  }

  lemma QuotedSplit(e: string, post: string)
    ensures (['"'] + e + ['"'] + post)[1..] == e + (['"'] + post)
  {
  }

  // ------------------------------------------------------------- numbers

  /** What may follow a value in a document: a character that ends a number. */
  predicate Delimited(post: string) {
    post != [] && (post[0] == ',' || post[0] == ']' || post[0] == '}' || post[0] == '\n')
  }

  lemma {:induction false} DigitsAreDigits(n: nat)
    ensures forall c :: c in W.Digits(n) ==> IsDigit(c)
  {
    if n >= 10 {
      DigitsAreDigits(n / 10);
    }
  }

  lemma {:induction false} NumberLenAll(s: string, post: string)
    requires forall c :: c in s ==> IsNumberChar(c)
    requires Delimited(post)
    ensures NumberLen(s + post) == |s|
  {
    if s == [] {
      assert s + post == post;
    } else {
      assert s[0] in s;
      NumberLenAll(s[1..], post);
      assert (s + post)[1..] == s[1..] + post;
    }
  }

  lemma NumberIsToken(text: string, post: string)
    requires text != [] && (IsDigit(text[0]) || text[0] == '-')
    requires forall c :: c in text ==> IsNumberChar(c)
    requires Delimited(post)
    ensures SkipComments(text + post) == Token(NumberToken, text, post)
  {
    NumberLex(text, post);
    TokenAt(NumberToken, text, post);
  }

  lemma NumberLex(text: string, post: string)
    requires text != [] && (IsDigit(text[0]) || text[0] == '-')
    requires forall c :: c in text ==> IsNumberChar(c)
    requires Delimited(post)
    ensures Lex(text + post) == (NumberToken, |text|)
  {
    var all := text + post;
    NumberLenAll(text[1..], post);
    assert all[0] == text[0] && all[1..] == text[1..] + post;
  }

  lemma {:induction false} AccumulateAppend(s: string, c: char, value: nat, threshold: nat)
    requires IsDigit(c)
    ensures Accumulate(s + [c], value, threshold)
            == match Accumulate(s, value, threshold)
               case Whole(m) => if m >= threshold then Double else Whole(m * 10 + (c as int - '0' as int))
               case other => other
  {
    if s == [] {
      assert s + [c] == [c];
    } else {
      var t := s + [c];
      assert t[0] == s[0] && t[1..] == s[1..] + [c];
      if IsDigit(s[0]) && value < threshold {
        AccumulateAppend(s[1..], c, value * 10 + (s[0] as int - '0' as int), threshold);
      }
    }
  }

  /** The digit loop returns `n` exactly if all digits but the last are below the
      threshold; otherwise it gives up and asks for a double. */
  lemma {:induction false} AccumulateDigits(n: nat, threshold: nat)
    requires threshold > 0
    ensures Accumulate(W.Digits(n), 0, threshold) == if n / 10 < threshold then Whole(n) else Double
  {
    if n >= 10 {
      AccumulateDigits(n / 10, threshold);
      AccumulateAppend(W.Digits(n / 10), W.Digit(n % 10), 0, threshold);
    }
  }

  /** What reading back a written integer gives. */
  function RereadInt(scan: string -> bool, i: int): Option<Value> {
    var n := if i < 0 then -i else i;
    if n / 10 >= Threshold(i < 0) then DecodeDouble(scan, W.IntText(i))
    else Some(if i <= MAX_INT then Int(i) else UInt(i))
  }

  lemma IntTextShape(i: int)
    ensures var t := W.IntText(i);
            && t != [] && (IsDigit(t[0]) || t[0] == '-') && (t[0] == '-' <==> i < 0)
            && (forall c :: c in t ==> IsNumberChar(c)) && !LooksReal(t)
  {
    var n := if i < 0 then -i else i;
    DigitsAreDigits(n);
    var d, t := W.Digits(n), W.IntText(i);
    assert d[0] in d;
    forall k | 0 <= k < |t| && !(k == 0 && i < 0) ensures IsDigit(t[k]) {
      assert t[k] in d;
    }
  }

  lemma DecodeInt(scan: string -> bool, i: int)
    ensures DecodeNumber(scan, W.IntText(i)) == RereadInt(scan, i)
  {
    var n := if i < 0 then -i else i;
    IntTextShape(i);
    AccumulateDigits(n, Threshold(i < 0));
    if i < 0 { assert W.IntText(i)[1..] == W.Digits(n); }
  }

  /** The accumulator of `decodeNumber` never exceeds 32 bits, whatever the text. */
  lemma {:induction false} AccumulateNeverWraps(s: string, value: nat, negative: bool)
    requires value <= MAX_UINT
    ensures var r := Accumulate(s, value, Threshold(negative));
            r.Whole? ==> r.n <= MAX_UINT && (negative && value <= MAX_INT ==> r.n <= MAX_INT)
  {
    if s != [] && IsDigit(s[0]) && value < Threshold(negative) {
      AccumulateNeverWraps(s[1..], value * 10 + (s[0] as int - '0' as int), negative);
    }
  }

  // -------------------------------------------------------------- values

  /** What reading back a written value gives; nothing if some number inside is
      taken for a double that the C library does not accept. */
  function Reread(scan: string -> bool, v: Value): Option<Value>
    decreases v, 1
  {
    match v
    case Int(i) => RereadInt(scan, i)
    case UInt(u) => RereadInt(scan, u)
    case Real(text) => DecodeDouble(scan, text)
    case Arr(items) => (match RereadItems(scan, items) case None => None case Some(xs) => Some(Arr(xs)))
    case Obj(members) => (match RereadMembers(scan, members) case None => None case Some(ms) => Some(Obj(ms)))
    case _ => Some(v)
  }

  function RereadItems(scan: string -> bool, items: seq<Value>): Option<seq<Value>>
    decreases items, 0
  {
    if items == [] then Some([])
    else match (Reread(scan, items[0]), RereadItems(scan, items[1..]))
      case (Some(x), Some(xs)) => Some([x] + xs)
      case _ => None
  }

  function RereadMembers(scan: string -> bool, members: seq<Member>): Option<seq<Member>>
    decreases members, 0
  {
    if members == [] then Some([])
    else match (Reread(scan, members[0].value), RereadMembers(scan, members[1..]))
      case (Some(x), Some(ms)) => Some([Member(members[0].name, x)] + ms)
      case _ => None
  }

  /** The first character of a value's text is neither space, slash nor `]`. */
  lemma TextHead(v: Value)
    requires NoReal(v)
    ensures var t := W.Text(v); t != [] && !IsSpace(t[0]) && t[0] != ']' && t[0] != '/'
  {
    match v
    case Int(i) => IntTextShape(i);
    case UInt(u) => IntTextShape(u);
    case _ =>
  }

  /** A punctuation character is a token by itself. */
  lemma Punctuation(c: char, rest: string)
    requires c == ',' || c == ':' || c == ']' || c == '}' || c == '[' || c == '{'
    ensures var t := ReadToken([c] + rest);
            && t == SkipComments([c] + rest)
            && t.rest == rest
            && t.kind == (if c == ',' then Comma else if c == ':' then Colon else if c == ']' then ArrayEnd
                          else if c == '}' then ObjectEnd else if c == '[' then ArrayBegin else ObjectBegin)
  {
    var s := [c] + rest;
    assert s[1..] == rest;
  }

  lemma Word(c: char, tail: string, kind: Kind, post: string)
    requires (c == 'n' && tail == "ull" && kind == NullToken) || (c == 't' && tail == "rue" && kind == TrueToken)
             || (c == 'f' && tail == "alse" && kind == FalseToken)
    ensures SkipComments([c] + tail + post) == Token(kind, [c] + tail, post)
  {
    var s := [c] + tail + post;
    assert s[0] == c && s[1..] == tail + post;
    TokenAt(kind, [c] + tail, post);
  }

  lemma ReadTextLeaf(scan: string -> bool, v: Value, post: string)
    requires Valid(v) && NoReal(v) && Delimited(post) && !v.Arr? && !v.Obj?
    ensures ReadValue(scan, W.Text(v) + post) == Leaf(Reread(scan, v), post)
  {
    match v
    case Null => ReadWord(scan, v, 'n', "ull", NullToken, post);
    case Bool(b) =>
      if b { ReadWord(scan, v, 't', "rue", TrueToken, post); } else { ReadWord(scan, v, 'f', "alse", FalseToken, post); }
    case Int(i) => ReadInt(scan, i, post);
    case UInt(u) => ReadInt(scan, u, post);
    case Str(s) => ReadStr(scan, s, post);
  }

  lemma ReadWord(scan: string -> bool, v: Value, c: char, tail: string, kind: Kind, post: string)
    requires (v == Null && c == 'n' && tail == "ull" && kind == NullToken)
             || (v == Bool(true) && c == 't' && tail == "rue" && kind == TrueToken)
             || (v == Bool(false) && c == 'f' && tail == "alse" && kind == FalseToken)
    ensures ReadValue(scan, W.Text(v) + post) == Leaf(Reread(scan, v), post)
  {
    assert W.Text(v) == [c] + tail;
    Word(c, tail, kind, post);
  }

  lemma ReadStr(scan: string -> bool, s: string, post: string)
    requires '\0' !in s
    ensures ReadValue(scan, W.Quoted(s) + post) == Got(Str(s), post)
  {
    StringIsToken(s, post);
    CStringIsWhole(s);
  }

  lemma ReadInt(scan: string -> bool, i: int, post: string)
    requires Delimited(post)
    ensures ReadValue(scan, W.IntText(i) + post) == Leaf(RereadInt(scan, i), post)
  {
    IntTextShape(i);
    DecodeInt(scan, i);
    NumberIsToken(W.IntText(i), post);
  }

  /** The loop of `readArray` on written items, up to the closing bracket. */
  function ItemsRead(scan: string -> bool, items: seq<Value>, acc: seq<Value>, post: string): Read {
    match RereadItems(scan, items) case None => Failed case Some(xs) => Got(Arr(acc + xs), post)
  }

  function MembersRead(scan: string -> bool, members: seq<Member>, acc: seq<Member>, post: string): Read {
    match RereadMembers(scan, members) case None => Failed case Some(ms) => Got(Obj(acc + ms), post)
  }

  // How the parser unfolds, one step at a time.

  lemma ArrayOpens(scan: string -> bool, s: string, inner: string)
    requires SkipComments(s).kind == ArrayBegin && SkipComments(s).rest == inner
    requires inner != [] && !IsSpace(inner[0])
    ensures ReadValue(scan, s) == if inner[0] == ']' then Got(Arr([]), inner[1..]) else ReadItems(scan, inner, [])
  {
  }

  lemma ObjectOpens(scan: string -> bool, s: string, inner: string)
    requires SkipComments(s).kind == ObjectBegin && SkipComments(s).rest == inner
    ensures ReadValue(scan, s) == ReadMembers(scan, inner, [], "")
  {
  }

  lemma ItemThen(scan: string -> bool, s: string, acc: seq<Value>, r: Option<Value>, tail: string, t: Token)
    requires ReadValue(scan, s) == Leaf(r, tail) && SkipComments(tail) == t
    ensures ReadItems(scan, s, acc)
            == match r
               case None => Failed
               case Some(x) => if t.kind == ArrayEnd then Got(Arr(acc + [x]), t.rest)
                               else ReadItems(scan, t.rest, acc + [x])
  {
  }

  lemma MemberThen(scan: string -> bool, s: string, acc: seq<Member>, prev: string, name: string, colon: string,
                   value: string, r: Option<Value>, tail: string, t: Token)
    requires SkipComments(s).kind == StringToken && SkipComments(s).rest == colon
    requires DecodeToken(SkipComments(s).text) == Some(name)
    requires ReadToken(colon).kind == Colon && ReadToken(colon).rest == value
    requires ReadValue(scan, value) == Leaf(r, tail)
    requires ReadToken(tail) == t && (t.kind == ObjectEnd || t.kind == Comma)
    ensures ReadMembers(scan, s, acc, prev)
            == match r
               case None => Failed
               case Some(x) =>
                 var more := Put(acc, CString(name), x);
                 if t.kind == ObjectEnd then Got(Obj(more), t.rest) else ReadMembers(scan, t.rest, more, name)
  {
    assert ReadName(s, prev) == Named(name, value);
    assert ReadMember(scan, s, acc, prev) == ReadMemberValue(scan, value, acc, name);
  }

  lemma {:induction false} ReadText(scan: string -> bool, v: Value, post: string)
    requires Valid(v) && NoReal(v) && Delimited(post)
    ensures ReadValue(scan, W.Text(v) + post) == Leaf(Reread(scan, v), post)
    decreases v, 1
  {
    match v
    case Arr(items) =>
      Opened('[', W.ItemsText(items, true), ']', post);
      ReadArrayText(scan, items, W.Text(v) + post, post);
      ArrayLeaf(scan, items, post);
    case Obj(members) =>
      Opened('{', W.MembersText(members, true), '}', post);
      ReadObjectText(scan, members, W.Text(v) + post, post);
      ObjectLeaf(scan, members, post);
    case _ => ReadTextLeaf(scan, v, post);
  }

  lemma ArrayLeaf(scan: string -> bool, items: seq<Value>, post: string)
    ensures ItemsRead(scan, items, [], post) == Leaf(Reread(scan, Arr(items)), post)
  {
    var r := RereadItems(scan, items);
    if r.Some? { assert [] + r.value == r.value; }
  }

  lemma ObjectLeaf(scan: string -> bool, members: seq<Member>, post: string)
    ensures MembersRead(scan, members, [], post) == Leaf(Reread(scan, Obj(members)), post)
  {
    var r := RereadMembers(scan, members);
    if r.Some? { assert [] + r.value == r.value; }
  }

  lemma Opened(open: char, inner: string, close: char, post: string)
    ensures [open] + inner + [close] + post == [open] + (inner + ([close] + post))
  {
  }

  lemma EmptyArray(scan: string -> bool, post: string)
    ensures ReadValue(scan, ['['] + ([']'] + post)) == Got(Arr([]), post)
  {
    var inner := [']'] + post;
    Punctuation('[', inner);
    assert inner[0] == ']' && inner[1..] == post;
    ArrayOpens(scan, ['['] + inner, inner);
  }

  /** The text of an array begins its first item, neither space nor `]`. */
  lemma ItemsHead(items: seq<Value>, close: string)
    requires items != [] && NoReal(items[0])
    ensures var inner := W.ItemsText(items, true) + close; inner != [] && !IsSpace(inner[0]) && inner[0] != ']'
  {
    TextHead(items[0]);
    var inner := W.ItemsText(items, true) + close;
    assert inner[0] == W.Text(items[0])[0];
  }

  lemma {:induction false} ReadArrayText(scan: string -> bool, items: seq<Value>, s: string, post: string)
    requires (forall x :: x in items ==> Valid(x) && NoReal(x)) && Delimited(post)
    requires s == ['['] + (W.ItemsText(items, true) + ([']'] + post))
    ensures ReadValue(scan, s) == ItemsRead(scan, items, [], post)
    decreases items, 1
  {
    var inner := W.ItemsText(items, true) + ([']'] + post);
    if items == [] {
      assert inner == [']'] + post;
      EmptyArray(scan, post);
      ItemsDone(scan, items, [], post);
    } else {
      assert items[0] in items;
      ItemsHead(items, [']'] + post);
      Punctuation('[', inner);
      ArrayOpens(scan, s, inner);
      ReadItemsText(scan, items, inner, post, []);
    }
  }

  /** The text of an array after its first item: the closing bracket, or a comma
      and the text of the others. */
  lemma ItemsShape(items: seq<Value>, post: string) returns (tail: string, rest: string)
    requires items != [] && Delimited(post)
    ensures W.ItemsText(items, true) + ([']'] + post) == W.Text(items[0]) + tail && Delimited(tail)
    ensures |items| == 1 ==> SkipComments(tail).kind == ArrayEnd && SkipComments(tail).rest == post
    ensures |items| > 1 ==> SkipComments(tail).kind == Comma && SkipComments(tail).rest == rest
                            && rest == W.ItemsText(items[1..], true) + ([']'] + post)
  {
    var close, more := [']'] + post, items[1..];
    tail := W.ItemsText(more, false) + close;
    rest := W.ItemsText(more, true) + close;
    FirstItem(items, close);
    if |items| == 1 {
      LastItem(more, post);
    } else {
      MoreItems(more, close);
    }
  }

  lemma FirstItem(items: seq<Value>, close: string)
    requires items != []
    ensures W.ItemsText(items, true) + close == W.Text(items[0]) + (W.ItemsText(items[1..], false) + close)
  {
    W.AppendTwo(W.Text(items[0]), W.ItemsText(items[1..], false), close);
  }

  lemma LastItem(more: seq<Value>, post: string)
    requires more == []
    ensures var tail := W.ItemsText(more, false) + ([']'] + post);
            Delimited(tail) && SkipComments(tail).kind == ArrayEnd && SkipComments(tail).rest == post
  {
    assert W.ItemsText(more, false) + ([']'] + post) == [']'] + post;
    Separates(']', post);
  }

  lemma MoreItems(more: seq<Value>, close: string)
    requires more != []
    ensures var tail, rest := W.ItemsText(more, false) + close, W.ItemsText(more, true) + close;
            Delimited(tail) && SkipComments(tail).kind == Comma && SkipComments(tail).rest == rest
  {
    CommaItems(more, close);
    Separates(',', W.ItemsText(more, true) + close);
  }

  /** A separator is a token of its own, and ends the value before it. */
  lemma Separates(c: char, rest: string)
    requires c == ']' || c == ','
    ensures Delimited([c] + rest)
    ensures SkipComments([c] + rest).kind == (if c == ']' then ArrayEnd else Comma) && SkipComments([c] + rest).rest == rest
  {
    Punctuation(c, rest);
  }

  lemma {:induction false} ReadItemsText(scan: string -> bool, items: seq<Value>, s: string, post: string, acc: seq<Value>)
    requires items != [] && (forall x :: x in items ==> Valid(x) && NoReal(x)) && Delimited(post)
    requires s == W.ItemsText(items, true) + ([']'] + post)
    ensures ReadItems(scan, s, acc) == ItemsRead(scan, items, acc, post)
    decreases items, 0
  {
    var tail, rest := ItemsShape(items, post);
    assert items[0] in items;
    ReadText(scan, items[0], tail);
    var r, t := Reread(scan, items[0]), SkipComments(tail);
    ItemThen(scan, s, acc, r, tail, t);
    if r.Some? {
      ItemsStep(scan, items, acc, r.value, post);
      if |items| > 1 {
        ReadItemsText(scan, items[1..], rest, post, acc + [r.value]);
      } else {
        ItemsDone(scan, items[1..], acc + [r.value], post);
      }
    } else {
      ItemsFail(scan, items, acc, post);
    }
  }

  lemma ItemsDone(scan: string -> bool, items: seq<Value>, acc: seq<Value>, post: string)
    requires items == []
    ensures ItemsRead(scan, items, acc, post) == Got(Arr(acc), post)
  {
    assert acc + [] == acc;
  }

  lemma ItemsFail(scan: string -> bool, items: seq<Value>, acc: seq<Value>, post: string)
    requires items != [] && Reread(scan, items[0]).None?
    ensures ItemsRead(scan, items, acc, post) == Failed
  {
  }

  lemma CommaItems(items: seq<Value>, close: string)
    requires items != []
    ensures W.ItemsText(items, false) + close == [','] + (W.ItemsText(items, true) + close)
  {
    W.AppendTwo([','], W.ItemsText(items, true), close);
  }

  lemma ItemsStep(scan: string -> bool, items: seq<Value>, acc: seq<Value>, x: Value, post: string)
    requires items != [] && Reread(scan, items[0]) == Some(x)
    ensures ItemsRead(scan, items, acc, post) == ItemsRead(scan, items[1..], acc + [x], post)
  {
    var r := RereadItems(scan, items[1..]);
    if r.Some? {
      assert acc + ([x] + r.value) == (acc + [x]) + r.value;
    }
  }

  ghost predicate GoodMembers(members: seq<Member>) {
    forall m :: m in members ==> '\0' !in m.name && Valid(m.value) && NoReal(m.value)
  }

  lemma EmptyObject(scan: string -> bool, post: string)
    ensures ReadValue(scan, ['{'] + (['}'] + post)) == Got(Obj([]), post)
  {
    var inner := ['}'] + post;
    Punctuation('{', inner);
    Punctuation('}', post);
    ObjectOpens(scan, ['{'] + inner, inner);
  }

  lemma {:induction false} ReadObjectText(scan: string -> bool, members: seq<Member>, s: string, post: string)
    requires GoodMembers(members) && Sorted(members) && Delimited(post)
    requires s == ['{'] + (W.MembersText(members, true) + (['}'] + post))
    ensures ReadValue(scan, s) == MembersRead(scan, members, [], post)
    decreases members, 1
  {
    var inner := W.MembersText(members, true) + (['}'] + post);
    if members == [] {
      assert inner == ['}'] + post;
      EmptyObject(scan, post);
      MembersDone(scan, members, [], post);
    } else {
      Punctuation('{', inner);
      ObjectOpens(scan, s, inner);
      ReadMembersText(scan, members, inner, post, [], "");
    }
  }

  /** The names already read come before the names still to be read. */
  ghost predicate Before(acc: seq<Member>, members: seq<Member>) {
    forall a, m :: a in acc && m in members ==> Less(a.name, m.name)
  }

  /** The text of an object: name, colon, value, and then the closing brace or a
      comma and the text of the other members. */
  lemma MembersShape(members: seq<Member>, post: string) returns (value: string, tail: string, rest: string)
    requires members != [] && Delimited(post)
    ensures W.MembersText(members, true) + (['}'] + post) == W.Quoted(members[0].name) + ([':'] + value)
    ensures value == W.Text(members[0].value) + tail && Delimited(tail)
    ensures ReadToken([':'] + value).kind == Colon && ReadToken([':'] + value).rest == value
    ensures |members| == 1 ==> ReadToken(tail).kind == ObjectEnd && ReadToken(tail).rest == post
    ensures |members| > 1 ==> ReadToken(tail).kind == Comma && ReadToken(tail).rest == rest
                              && rest == W.MembersText(members[1..], true) + (['}'] + post)
  {
    var close, m, more := ['}'] + post, members[0], members[1..];
    tail := W.MembersText(more, false) + close;
    value := W.Text(m.value) + tail;
    rest := W.MembersText(more, true) + close;
    MemberSplit(W.Quoted(m.name), W.Text(m.value), W.MembersText(more, false), close);
    Punctuation(':', value);
    if more == [] {
      assert tail == close;
      Punctuation('}', post);
    } else {
      CommaMembers(more, close);
      Punctuation(',', rest);
    }
  }

  lemma {:induction false} ReadMembersText(scan: string -> bool, members: seq<Member>, s: string, post: string,
                                           acc: seq<Member>, prev: string)
    requires members != [] && GoodMembers(members) && Sorted(members) && Before(acc, members) && Delimited(post)
    requires s == W.MembersText(members, true) + (['}'] + post)
    ensures ReadMembers(scan, s, acc, prev) == MembersRead(scan, members, acc, post)
    decreases members, 0
  {
    var m := members[0];
    var value, tail, rest := MembersShape(members, post);
    assert m in members;
    StringIsToken(m.name, [':'] + value);
    CStringIsWhole(m.name);
    ReadText(scan, m.value, tail);
    var r, t := Reread(scan, m.value), ReadToken(tail);
    MemberThen(scan, s, acc, prev, m.name, [':'] + value, value, r, tail, t);
    if r.Some? {
      PutLast(acc, m.name, r.value);
      MembersStep(scan, members, acc, r.value, post);
      var next := acc + [Member(m.name, r.value)];
      if |members| > 1 {
        StillBefore(acc, members, r.value);
        ReadMembersText(scan, members[1..], rest, post, next, m.name);
      } else {
        MembersDone(scan, members[1..], next, post);
      }
    } else {
      MembersFail(scan, members, acc, post);
    }
  }

  lemma MembersDone(scan: string -> bool, members: seq<Member>, acc: seq<Member>, post: string)
    requires members == []
    ensures MembersRead(scan, members, acc, post) == Got(Obj(acc), post)
  {
    assert acc + [] == acc;
  }

  lemma MembersFail(scan: string -> bool, members: seq<Member>, acc: seq<Member>, post: string)
    requires members != [] && Reread(scan, members[0].value).None?
    ensures MembersRead(scan, members, acc, post) == Failed
  {
  }

  lemma MemberSplit(name: string, value: string, rest: string, close: string)
    ensures ("" + (name + (":" + (value + rest)))) + close == name + ([':'] + (value + (rest + close)))
  {
  }

  lemma CommaMembers(members: seq<Member>, close: string)
    requires members != []
    ensures W.MembersText(members, false) + close == [','] + (W.MembersText(members, true) + close)
  {
    W.AppendTwo([','], W.MembersText(members, true), close);
  }

  lemma MembersStep(scan: string -> bool, members: seq<Member>, acc: seq<Member>, x: Value, post: string)
    requires members != [] && Reread(scan, members[0].value) == Some(x)
    ensures MembersRead(scan, members, acc, post)
            == MembersRead(scan, members[1..], acc + [Member(members[0].name, x)], post)
  {
    var r, m := RereadMembers(scan, members[1..]), Member(members[0].name, x);
    if r.Some? {
      assert acc + ([m] + r.value) == (acc + [m]) + r.value;
    }
  }

  lemma StillBefore(acc: seq<Member>, members: seq<Member>, x: Value)
    requires members != [] && Sorted(members) && Before(acc, members) && GoodMembers(members)
    ensures Before(acc + [Member(members[0].name, x)], members[1..])
    ensures Sorted(members[1..]) && GoodMembers(members[1..])
  {
    forall a, m | a in acc + [Member(members[0].name, x)] && m in members[1..] ensures Less(a.name, m.name) {
      var j :| 0 <= j < |members[1..]| && members[1..][j] == m;
      assert members[j + 1] == m && m in members;
    }
  }

  // ---------------------------------------------------------- main results

  /** The value a document stands for: an unsigned number that fits a signed one
      is read as signed. */
  function Normal(v: Value): Value
    decreases v, 1
  {
    match v
    case UInt(u) => if u <= MAX_INT then Int(u) else v
    case Arr(items) => Arr(NormalItems(items))
    case Obj(members) => Obj(NormalMembers(members))
    case _ => v
  }

  function NormalItems(items: seq<Value>): seq<Value>
    decreases items, 0
  {
    if items == [] then [] else [Normal(items[0])] + NormalItems(items[1..])
  }

  function NormalMembers(members: seq<Member>): seq<Member>
    decreases members, 0
  {
    if members == [] then []
    else [Member(members[0].name, Normal(members[0].value))] + NormalMembers(members[1..])
  }

  const LEAST: int := -2147483639
  const GREATEST: int := 4294967289

  /** Every integer inside is at least eight or five away from the 32-bit limits. */
  predicate InRange(v: Value) {
    match v
    case Int(i) => LEAST <= i
    case UInt(u) => u <= GREATEST
    case Arr(items) => forall x :: x in items ==> InRange(x)
    case Obj(members) => forall m :: m in members ==> InRange(m.value)
    case _ => true
  }

  lemma {:induction false} RereadIsNormal(scan: string -> bool, v: Value)
    requires Valid(v) && NoReal(v)
    ensures Reread(scan, v) == Some(Normal(v)) <==> InRange(v)
    decreases v, 1
  {
    match v
    case Arr(items) => RereadItemsNormal(scan, items);
    case Obj(members) => RereadMembersNormal(scan, members);
    case _ =>
  }

  lemma {:induction false} RereadItemsNormal(scan: string -> bool, items: seq<Value>)
    requires forall x :: x in items ==> Valid(x) && NoReal(x)
    ensures RereadItems(scan, items) == Some(NormalItems(items)) <==> forall x :: x in items ==> InRange(x)
    decreases items, 0
  {
    if items != [] {
      var x, more := items[0], items[1..];
      assert x in items && forall y :: y in items <==> y == x || y in more;
      RereadIsNormal(scan, x);
      RereadItemsNormal(scan, more);
      var r := RereadItems(scan, items);
      if r == Some(NormalItems(items)) {
        assert r.value[0] == Normal(x) && r.value[1..] == NormalItems(more);
      }
    }
  }

  lemma {:induction false} RereadMembersNormal(scan: string -> bool, members: seq<Member>)
    requires forall m :: m in members ==> Valid(m.value) && NoReal(m.value)
    ensures RereadMembers(scan, members) == Some(NormalMembers(members)) <==> forall m :: m in members ==> InRange(m.value)
    decreases members, 0
  {
    if members != [] {
      var m, more := members[0], members[1..];
      assert m in members && forall y :: y in members <==> y == m || y in more;
      RereadIsNormal(scan, m.value);
      RereadMembersNormal(scan, more);
      var r := RereadMembers(scan, members);
      if r == Some(NormalMembers(members)) {
        assert r.value[0] == Member(m.name, Normal(m.value)) && r.value[1..] == NormalMembers(more);
      }
    }
  }

  /** `FastWriter::write`. */
  function Document(v: Value): string { W.Text(v) + "\n" }

  /** Parsing what the writer prints returns the value, exactly for the values
      whose integers all lie in -2147483639..4294967289; nearer to the 32-bit
      limits an integer comes back as a double or not at all. */
  lemma RoundTrip(scan: string -> bool, v: Value)
    requires Valid(v) && NoReal(v)
    ensures Parse(scan, Document(v)) == Some(Normal(v)) <==> InRange(v)
  {
    ReadText(scan, v, "\n");
    RereadIsNormal(scan, v);
  }

  /** Carrying an object as a message parameter (`ToJsonStr`, then `FromJsonStr`,
      which accepts objects only) returns the same object, if and only if its integers
      are in range. */
  lemma ParameterRoundTrip(scan: string -> bool, members: seq<Member>)
    requires Valid(Obj(members)) && NoReal(Obj(members))
    ensures FromJsonStr(scan, Document(Obj(members))) == Some(Obj(NormalMembers(members))) <==> InRange(Obj(members))
  {
    RoundTrip(scan, Obj(members));
  }

  function FromJsonStr(scan: string -> bool, text: string): Option<Value> {
    match Parse(scan, text)
    case Some(Obj(members)) => Some(Obj(members))
    case _ => None
  }

  /** The smallest signed integer is outside: it is read back as a real number. */
  lemma MinIntIsReal(scan: string -> bool)
    requires scan(W.IntText(MIN_INT))
    ensures Parse(scan, Document(Int(MIN_INT))) == Some(Real(W.IntText(MIN_INT)))
  {
    ReadText(scan, Int(MIN_INT), "\n");
  }
}
