/** Every text of the JSON grammar (RFC 8259) is read as what it stands for: blanks
    anywhere, members in any order and more than once, every escape, every
    numeral. */
module JsonGrammar {
  import opened JsonValues
  import opened JsonSyntax
  import opened JsonTokens
  import R = JsonRoundTrip

  // -------------------------------------------------------------- objects

  /** The members an object's text holds, in the order of the text, repetitions
      included, and what follows the object. */
  datatype Listing = Listing(pairs: seq<Member>, rest: string)

  function Preceded(m: Member, r: Option<Listing>): Option<Listing> {
    match r case None => None case Some(l) => Some(Listing([m] + l.pairs, l.rest))
  }

  function PairsIn(scan: string -> bool, s: string, prev: string): Option<Listing>
    decreases |s|
  {
    match ReadName(s, prev)
    case Broken => None
    case Closed(rest) => Some(Listing([], rest))
    case Named(name, text) =>
      match ReadValue(scan, text)
      case Failed => None
      case Got(v, after) =>
        match ReadSeparator(after)
        case None => None
        case Some(t) =>
          Preceded(Member(CString(name), v),
                   if t.kind == ObjectEnd then Some(Listing([], t.rest)) else PairsIn(scan, t.rest, name))
  }

  function GatheredFrom(acc: seq<Member>, r: Option<Listing>): Read {
    match r case None => Failed case Some(l) => Got(Obj(PutAll(acc, l.pairs)), l.rest)
  }

  lemma {:induction false} MembersAreGathered(scan: string -> bool, s: string, acc: seq<Member>, prev: string)
    ensures ReadMembers(scan, s, acc, prev) == GatheredFrom(acc, PairsIn(scan, s, prev))
    decreases |s|
  {
    var n := ReadName(s, prev);
    if n.Named? {
      assert ReadMember(scan, s, acc, prev) == ReadMemberValue(scan, n.rest, acc, n.name);
      MemberGathered(scan, n.rest, acc, n.name);
      var turn := ReadMemberValue(scan, n.rest, acc, n.name);
      if turn.Go? {
        MembersAreGathered(scan, turn.rest, turn.members, n.name);
        var m := Member(CString(n.name), ReadValue(scan, n.rest).value);
        GatherOne(acc, m, PairsIn(scan, turn.rest, n.name));
      }
    }
  }

  /** One turn of the loop that puts the members into the object. */
  lemma MemberGathered(scan: string -> bool, text: string, acc: seq<Member>, name: string)
    ensures var turn, value := ReadMemberValue(scan, text, acc, name), ReadValue(scan, text);
            if value.Got? && ReadSeparator(value.rest).Some? then
              var t, m := ReadSeparator(value.rest).value, Member(CString(name), value.value);
              if t.kind == ObjectEnd then turn == Stop(Got(Obj(PutAll(acc, [m])), t.rest))
              else turn == Go(t.rest, Put(acc, m.name, m.value), name)
            else turn == Stop(Failed)
  {
    var value := ReadValue(scan, text);
    if value.Got? {
      PutAllOne(acc, Member(CString(name), value.value), []);
    }
  }

  lemma GatherOne(acc: seq<Member>, m: Member, r: Option<Listing>)
    ensures GatheredFrom(acc, Preceded(m, r)) == GatheredFrom(Put(acc, m.name, m.value), r)
  {
    if r.Some? {
      PutAllOne(acc, m, r.value.pairs);
    }
  }

  lemma PutAllOne(acc: seq<Member>, m: Member, pairs: seq<Member>)
    ensures PutAll(acc, [m] + pairs) == PutAll(Put(acc, m.name, m.value), pairs)
  {
    assert ([m] + pairs)[1..] == pairs;
  }

  /** Whatever object text the parser accepts, the object holds exactly the pairs of
      the text, in order of their names, the last value of a repeated name. */
  lemma ObjectExact(scan: string -> bool, s: string, members: seq<Member>, rest: string)
    requires ReadMembers(scan, s, [], "") == Got(Obj(members), rest)
    ensures PairsIn(scan, s, "").Some? && PairsIn(scan, s, "").value.rest == rest
    ensures Sorted(members)
    ensures forall m :: m in members <==> LastOf(PairsIn(scan, s, "").value.pairs, m)
  {
    MembersAreGathered(scan, s, [], "");
    var pairs := PairsIn(scan, s, "").value.pairs;
    forall m ensures m in members <==> LastOf(pairs, m) {
      PutAllExact([], pairs, m);
    }
    PutAllExact([], pairs, Member("", Null));
  }

  // -------------------------------------------------------------- grammar

  /** A numeral: digits with or without a minus, or a text with a fraction or an
      exponent. */
  datatype Numeral = Integer(negative: bool, digits: string) | Fraction(text: string)

  /** A text with the blanks in front of it. */
  datatype Doc = Doc(lead: string, body: Body)

  datatype Body =
    | NullWord | TrueWord | FalseWord
    | Number(numeral: Numeral)
    | Text(pieces: seq<Piece>)
    | NoItems(gap: string)
    | Items(items: Items)
    | NoMembers(gap: string)
    | Members(members: Members)

  /** Items with the blanks behind each of them. */
  datatype Items = LastItem(item: Doc, trail: string) | NextItem(item: Doc, trail: string, more: Items)

  datatype Members =
    | LastMember(lead: string, name: seq<Piece>, gap: string, value: Doc, trail: string)
    | NextMember(lead: string, name: seq<Piece>, gap: string, value: Doc, trail: string, more: Members)

  function NumeralText(n: Numeral): string {
    match n
    case Integer(negative, digits) => (if negative then ['-'] else []) + digits
    case Fraction(text) => text
  }

  function Quotation(ps: seq<Piece>): string { ['"'] + PiecesText(ps) + ['"'] }

  /** The text of a document and, after it, `post`. */
  function Show(d: Doc, post: string): string
    decreases d
  {
    d.lead + ShowBody(d.body, post)
  }

  function ShowBody(b: Body, post: string): string
    decreases b
  {
    match b
    case NullWord => "null" + post
    case TrueWord => "true" + post
    case FalseWord => "false" + post
    case Number(n) => NumeralText(n) + post
    case Text(ps) => Quotation(ps) + post
    case NoItems(gap) => ['['] + (gap + ([']'] + post))
    case Items(items) => ['['] + ShowItems(items, post)
    case NoMembers(gap) => ['{'] + (gap + (['}'] + post))
    case Members(members) => ['{'] + ShowMembers(members, post)
  }

  function ShowItems(l: Items, post: string): string
    decreases l
  {
    match l
    case LastItem(d, trail) => Show(d, trail + ([']'] + post))
    case NextItem(d, trail, more) => Show(d, trail + ([','] + ShowItems(more, post)))
  }

  function ShowMembers(l: Members, post: string): string
    decreases l
  {
    match l
    case LastMember(lead, name, gap, value, trail) =>
      lead + (Quotation(name) + (gap + ([':'] + Show(value, trail + (['}'] + post)))))
    case NextMember(lead, name, gap, value, trail, more) =>
      lead + (Quotation(name) + (gap + ([':'] + Show(value, trail + ([','] + ShowMembers(more, post))))))
  }

  predicate AllDigits(s: string) { forall i :: 0 <= i < |s| ==> '0' <= s[i] <= '9' }

  predicate GoodNumeral(n: Numeral) {
    match n
    case Integer(_, digits) => digits != [] && AllDigits(digits)
    case Fraction(text) =>
      && text != [] && (IsDigit(text[0]) || text[0] == '-') && (forall c :: c in text ==> IsNumberChar(c))
      && ('.' in text || 'e' in text || 'E' in text)
  }

  predicate WellFormed(d: Doc)
    decreases d
  {
    Blank(d.lead) && WellFormedBody(d.body)
  }

  predicate WellFormedBody(b: Body)
    decreases b
  {
    match b
    case Number(n) => GoodNumeral(n)
    case Text(ps) => AllGood(ps)
    case NoItems(gap) => Blank(gap)
    case Items(items) => WellFormedItems(items)
    case NoMembers(gap) => Blank(gap)
    case Members(members) => WellFormedMembers(members)
    case _ => true
  }

  predicate WellFormedItems(l: Items)
    decreases l
  {
    WellFormed(l.item) && Blank(l.trail) && (l.NextItem? ==> WellFormedItems(l.more))
  }

  predicate WellFormedMembers(l: Members)
    decreases l
  {
    && Blank(l.lead) && AllGood(l.name) && Blank(l.gap) && WellFormed(l.value) && Blank(l.trail)
    && (l.NextMember? ==> WellFormedMembers(l.more))
  }

  // -------------------------------------------------------------- meaning

  /** The number that decimal digits denote. */
  function Decimal(digits: string): (n: nat)
    requires AllDigits(digits)
  {
    if digits == [] then 0
    else 10 * Decimal(digits[..|digits| - 1]) + (digits[|digits| - 1] as int - '0' as int)
  }

  /** Integers down to -2147483639 and up to 4294967289 are read as such, the rest
      as doubles. */
  function NumeralMeaning(scan: string -> bool, n: Numeral): Option<Value>
    requires GoodNumeral(n)
  {
    match n
    case Fraction(text) => DecodeDouble(scan, text)
    case Integer(negative, digits) =>
      var k := Decimal(digits);
      if negative && k <= 2147483639 then Some(Int(0 - k))
      else if !negative && k <= 2147483647 then Some(Int(k))
      else if !negative && k <= 4294967289 then Some(UInt(k))
      else DecodeDouble(scan, NumeralText(n))
  }

  /** Nothing if the C library does not take one of the numerals for a double. */
  function Meaning(scan: string -> bool, d: Doc): Option<Value>
    requires WellFormed(d)
    decreases d
  {
    BodyMeaning(scan, d.body)
  }

  function BodyMeaning(scan: string -> bool, b: Body): Option<Value>
    requires WellFormedBody(b)
    decreases b
  {
    match b
    case NullWord => Some(Null)
    case TrueWord => Some(Bool(true))
    case FalseWord => Some(Bool(false))
    case Number(n) => NumeralMeaning(scan, n)
    case Text(ps) => Some(Str(CString(PiecesMeaning(ps))))
    case NoItems(_) => Some(Arr([]))
    case Items(items) =>
      (match ItemsMeaning(scan, items) case None => None case Some(xs) => Some(Arr(xs)))
    case NoMembers(_) => Some(Obj([]))
    case Members(members) =>
      (match PairsMeaning(scan, members) case None => None case Some(ps) => Some(Obj(PutAll([], ps))))
  }

  function ItemsMeaning(scan: string -> bool, l: Items): Option<seq<Value>>
    requires WellFormedItems(l)
    decreases l
  {
    match (Meaning(scan, l.item), if l.LastItem? then Some([]) else ItemsMeaning(scan, l.more))
    case (Some(x), Some(xs)) => Some([x] + xs)
    case _ => None
  }

  /** The pairs in the order of the text. */
  function PairsMeaning(scan: string -> bool, l: Members): Option<seq<Member>>
    requires WellFormedMembers(l)
    decreases l
  {
    match (Meaning(scan, l.value), if l.LastMember? then Some([]) else PairsMeaning(scan, l.more))
    case (Some(x), Some(ps)) => Some([Member(CString(PiecesMeaning(l.name)), x)] + ps)
    case _ => None
  }

  // --------------------------------------------------------------- tokens

  lemma TokenAfterBlanks(blank: string, s: string)
    requires Blank(blank)
    ensures ReadToken(blank + s) == ReadToken(s) && SkipComments(blank + s) == SkipComments(s)
  {
    SkipBlanks(blank, s);
  }

  lemma ValueAfterBlanks(scan: string -> bool, blank: string, s: string)
    requires Blank(blank)
    ensures ReadValue(scan, blank + s) == ReadValue(scan, s)
  {
    TokenAfterBlanks(blank, s);
  }

  /** What may follow a numeral. */
  predicate Ends(post: string) { post == [] || !IsNumberChar(post[0]) }

  lemma TrailEnds(trail: string, c: char, rest: string)
    requires Blank(trail) && (c == ',' || c == ']' || c == '}')
    ensures Ends(trail + ([c] + rest))
    ensures var t := ReadToken(trail + ([c] + rest));
            && t == SkipComments(trail + ([c] + rest)) && t.rest == rest
            && t.kind == (if c == ',' then Comma else if c == ']' then ArrayEnd else ObjectEnd)
  {
    TokenAfterBlanks(trail, [c] + rest);
    R.Punctuation(c, rest);
    var s := trail + ([c] + rest);
    assert trail != [] ==> s[0] in trail;
    assert trail == [] ==> s[0] == c;
  }

  lemma {:induction false} NumberStops(s: string, post: string)
    requires forall c :: c in s ==> IsNumberChar(c)
    requires Ends(post)
    ensures NumberLen(s + post) == |s|
  {
    if s == [] {
      assert s + post == post;
    } else {
      assert s[0] in s;
      NumberStops(s[1..], post);
      assert (s + post)[1..] == s[1..] + post;
    }
  }

  lemma NumeralLex(text: string, post: string)
    requires text != [] && (IsDigit(text[0]) || text[0] == '-')
    requires forall c :: c in text ==> IsNumberChar(c)
    requires Ends(post)
    ensures Lex(text + post) == (NumberToken, |text|)
  {
    NumberStops(text[1..], post);
    assert (text + post)[0] == text[0] && (text + post)[1..] == text[1..] + post;
  }

  lemma NumeralIsToken(text: string, post: string)
    requires text != [] && (IsDigit(text[0]) || text[0] == '-')
    requires forall c :: c in text ==> IsNumberChar(c)
    requires Ends(post)
    ensures SkipComments(text + post) == Token(NumberToken, text, post)
  {
    NumeralLex(text, post);
    R.TokenAt(NumberToken, text, post);
  }

  lemma QuotationIsToken(ps: seq<Piece>, post: string)
    requires AllGood(ps)
    ensures ReadToken(Quotation(ps) + post) == SkipComments(Quotation(ps) + post) == Token(StringToken, Quotation(ps), post)
    ensures DecodeToken(Quotation(ps)) == Some(PiecesMeaning(ps))
  {
    DecodePieces(ps);
    EnclosedIsToken(PiecesText(ps), Quotation(ps), post);
  }

  lemma EnclosedIsToken(e: string, q: string, post: string)
    requires Enclosed(e) && q == ['"'] + e + ['"']
    ensures ReadToken(q + post) == SkipComments(q + post) == Token(StringToken, q, post)
    ensures DecodeToken(q) == Decode(e)
  {
    assert q[1..|q| - 1] == e;
    EnclosedLex(e, q, post);
    assert q[0] == '"';
    R.TokenAt(StringToken, q, post);
  }

  lemma EnclosedLex(e: string, q: string, post: string)
    requires Enclosed(e) && q == ['"'] + e + ['"']
    ensures Lex(q + post) == (StringToken, |q|)
  {
    R.QuotedSplit(e, post);
    var t := e + (['"'] + post);
    assert t[..|e|] == e && t[|e|] == '"';
    ScanStringExact(t, |e| + 1);
    assert (q + post)[0] == '"' && (q + post)[1..] == t;
  }

  // -------------------------------------------------------------- numbers

  lemma {:induction false} AccumulateDecimal(s: string, threshold: nat)
    requires threshold > 0 && AllDigits(s)
    ensures Accumulate(s, 0, threshold) == if Decimal(s) / 10 < threshold then Whole(Decimal(s)) else Double
  {
    if s != [] {
      var front, c := s[..|s| - 1], s[|s| - 1];
      assert s == front + [c];
      AccumulateDecimal(front, threshold);
      R.AccumulateAppend(front, c, 0, threshold);
      assert Decimal(s) / 10 == Decimal(front);
    }
  }

  lemma NumeralShape(n: Numeral)
    requires GoodNumeral(n)
    ensures var t := NumeralText(n);
            && t != [] && (IsDigit(t[0]) || t[0] == '-') && (forall c :: c in t ==> IsNumberChar(c))
            && (LooksReal(t) <==> n.Fraction?)
  {
    var t := NumeralText(n);
    match n
    case Integer(negative, digits) =>
      forall i | 0 <= i < |t| && (i > 0 || !negative) ensures IsDigit(t[i]) {
        assert t[i] == digits[if negative then i - 1 else i];
      }
    case Fraction(_) =>
      var c :| c in t && (c == '.' || c == 'e' || c == 'E');
      var i :| 0 <= i < |t| && t[i] == c;
  }

  lemma ReadNumeral(scan: string -> bool, n: Numeral)
    requires GoodNumeral(n)
    ensures DecodeNumber(scan, NumeralText(n)) == NumeralMeaning(scan, n)
  {
    NumeralShape(n);
    if n.Integer? {
      ReadInteger(scan, n.negative, n.digits, NumeralText(n));
    }
  }

  lemma ReadInteger(scan: string -> bool, negative: bool, digits: string, t: string)
    requires digits != [] && AllDigits(digits) && !LooksReal(t)
    requires t == (if negative then ['-'] else []) + digits
    ensures DecodeNumber(scan, t)
            == var k := Decimal(digits);
               if negative && k <= 2147483639 then Some(Int(0 - k))
               else if !negative && k <= 2147483647 then Some(Int(k))
               else if !negative && k <= 4294967289 then Some(UInt(k))
               else DecodeDouble(scan, t)
  {
    AccumulateDecimal(digits, Threshold(negative));
    if negative {
      assert t[0] == '-' && t[1..] == digits;
      ReadNegative(scan, digits, t);
    } else {
      assert t == digits;
      ReadPositive(scan, t);
    }
  }

  lemma ReadNegative(scan: string -> bool, digits: string, t: string)
    requires t != [] && t[0] == '-' && t[1..] == digits && AllDigits(digits) && !LooksReal(t)
    requires Accumulate(digits, 0, 214748364) == if Decimal(digits) / 10 < 214748364 then Whole(Decimal(digits)) else Double
    ensures DecodeNumber(scan, t)
            == if Decimal(digits) <= 2147483639 then Some(Int(0 - Decimal(digits))) else DecodeDouble(scan, t)
  {
    assert Threshold(true) == 214748364;
  }

  lemma ReadPositive(scan: string -> bool, t: string)
    requires t != [] && AllDigits(t) && !LooksReal(t)
    requires Accumulate(t, 0, 429496729) == if Decimal(t) / 10 < 429496729 then Whole(Decimal(t)) else Double
    ensures DecodeNumber(scan, t)
            == var k := Decimal(t);
               if k <= 2147483647 then Some(Int(k)) else if k <= 4294967289 then Some(UInt(k)) else DecodeDouble(scan, t)
  {
    assert Threshold(false) == 429496729 && t[0] != '-';
  }

  // ------------------------------------------------------------ documents

  lemma ReadLeaf(scan: string -> bool, b: Body, post: string)
    requires WellFormedBody(b) && Ends(post) && !b.Items? && !b.Members?
    ensures ReadValue(scan, ShowBody(b, post)) == Leaf(BodyMeaning(scan, b), post)
  {
    match b
    case NullWord => ReadWord(scan, "null", 'n', "ull", NullToken, post);
    case TrueWord => ReadWord(scan, "true", 't', "rue", TrueToken, post);
    case FalseWord => ReadWord(scan, "false", 'f', "alse", FalseToken, post);
    case Number(n) => ReadNumber(scan, n, post);
    case Text(ps) => ReadQuotation(scan, ps, post);
    case NoItems(gap) => ReadNoItems(scan, gap, post);
    case NoMembers(gap) => ReadNoMembers(scan, gap, post);
  }

  lemma ReadWord(scan: string -> bool, word: string, c: char, tail: string, kind: Kind, post: string)
    requires word == [c] + tail
    requires (c == 'n' && tail == "ull" && kind == NullToken) || (c == 't' && tail == "rue" && kind == TrueToken)
             || (c == 'f' && tail == "alse" && kind == FalseToken)
    ensures ReadValue(scan, word + post)
            == Got(if kind == NullToken then Null else Bool(kind == TrueToken), post)
  {
    R.Word(c, tail, kind, post);
  }

  lemma ReadNumber(scan: string -> bool, n: Numeral, post: string)
    requires GoodNumeral(n) && Ends(post)
    ensures ReadValue(scan, NumeralText(n) + post) == Leaf(NumeralMeaning(scan, n), post)
  {
    NumeralShape(n);
    ReadNumeral(scan, n);
    NumeralIsToken(NumeralText(n), post);
  }

  lemma ReadQuotation(scan: string -> bool, ps: seq<Piece>, post: string)
    requires AllGood(ps)
    ensures ReadValue(scan, Quotation(ps) + post) == Got(Str(CString(PiecesMeaning(ps))), post)
  {
    QuotationIsToken(ps, post);
    StringValue(scan, Quotation(ps) + post, Quotation(ps), post, PiecesMeaning(ps));
  }

  /** How the parser takes a string token. */
  lemma StringValue(scan: string -> bool, s: string, text: string, rest: string, decoded: string)
    requires SkipComments(s) == Token(StringToken, text, rest) && DecodeToken(text) == Some(decoded)
    ensures ReadValue(scan, s) == Got(Str(CString(decoded)), rest)
  {
  }

  lemma ReadNoItems(scan: string -> bool, gap: string, post: string)
    requires Blank(gap)
    ensures ReadValue(scan, ['['] + (gap + ([']'] + post))) == Got(Arr([]), post)
  {
    var close := [']'] + post;
    R.Punctuation('[', gap + close);
    SkipBlanks(gap, close);
    assert SkipSpaces(close) == close && close[1..] == post;
  }

  lemma ReadNoMembers(scan: string -> bool, gap: string, post: string)
    requires Blank(gap)
    ensures ReadValue(scan, ['{'] + (gap + (['}'] + post))) == Got(Obj([]), post)
  {
    var inner := gap + (['}'] + post);
    R.Punctuation('{', inner);
    TrailEnds(gap, '}', post);
    R.ObjectOpens(scan, ['{'] + inner, inner);
    assert ReadName(inner, "") == Closed(post);
  }

  /** A value does not begin with a blank or a closing bracket. */
  lemma BodyHead(b: Body, post: string)
    requires WellFormedBody(b)
    ensures var t := ShowBody(b, post); t != [] && !IsSpace(t[0]) && t[0] != ']'
  {
    match b
    case Number(n) => NumeralShape(n);
    case _ =>
  }

  /** The parser reads every document of the grammar, up to its end, as what it
      stands for. */
  lemma {:induction false} ReadDoc(scan: string -> bool, d: Doc, post: string)
    requires WellFormed(d) && Ends(post)
    ensures ReadValue(scan, Show(d, post)) == Leaf(Meaning(scan, d), post)
    decreases d
  {
    ValueAfterBlanks(scan, d.lead, ShowBody(d.body, post));
    match d.body
    case Items(items) =>
      OpenItems(scan, items, post);
      ReadItemList(scan, items, [], post);
      ItemsLeaf(scan, items, post);
    case Members(members) =>
      OpenMembers(scan, members, post);
      ReadMemberList(scan, members, [], "", post);
    case _ =>
      ReadLeaf(scan, d.body, post);
  }

  function ItemsRead(scan: string -> bool, l: Items, acc: seq<Value>, post: string): Read
    requires WellFormedItems(l)
  {
    match ItemsMeaning(scan, l) case None => Failed case Some(xs) => Got(Arr(acc + xs), post)
  }

  function MembersRead(scan: string -> bool, l: Members, acc: seq<Member>, post: string): Read
    requires WellFormedMembers(l)
  {
    match PairsMeaning(scan, l) case None => Failed case Some(ps) => Got(Obj(PutAll(acc, ps)), post)
  }

  lemma ItemsLeaf(scan: string -> bool, items: Items, post: string)
    requires WellFormedItems(items)
    ensures ItemsRead(scan, items, [], post) == Leaf(BodyMeaning(scan, Body.Items(items)), post)
  {
    var r := ItemsMeaning(scan, items);
    if r.Some? { assert [] + r.value == r.value; }
  }

  lemma OpenMembers(scan: string -> bool, l: Members, post: string)
    ensures ReadValue(scan, ['{'] + ShowMembers(l, post)) == ReadMembers(scan, ShowMembers(l, post), [], "")
  {
    var inner := ShowMembers(l, post);
    R.Punctuation('{', inner);
    R.ObjectOpens(scan, ['{'] + inner, inner);
  }

  /** After the opening bracket the blanks are skipped and the items follow. */
  lemma OpenItems(scan: string -> bool, l: Items, post: string)
    requires WellFormedItems(l)
    ensures ReadValue(scan, ['['] + ShowItems(l, post)) == ReadItems(scan, ShowItems(l, post), [])
  {
    var inner := ShowItems(l, post);
    R.Punctuation('[', inner);
    var tail := if l.LastItem? then l.trail + ([']'] + post) else l.trail + ([','] + ShowItems(l.more, post));
    assert inner == Show(l.item, tail);
    OpenFirst(scan, l.item, tail, ['['] + inner);
  }

  lemma OpenFirst(scan: string -> bool, d: Doc, tail: string, s: string)
    requires WellFormed(d) && SkipComments(s).kind == ArrayBegin && SkipComments(s).rest == Show(d, tail)
    ensures ReadValue(scan, s) == ReadItems(scan, Show(d, tail), [])
  {
    var inner, body := Show(d, tail), ShowBody(d.body, tail);
    BodyHead(d.body, tail);
    SkipBlanks(d.lead, body);
    assert SkipSpaces(inner) == SkipSpaces(body) == body;
    ValueAfterBlanks(scan, d.lead, body);
    assert ReadValue(scan, s) == ReadItems(scan, body, []);
  }

  lemma {:induction false} ReadItemList(scan: string -> bool, l: Items, acc: seq<Value>, post: string)
    requires WellFormedItems(l)
    ensures ReadItems(scan, ShowItems(l, post), acc) == ItemsRead(scan, l, acc, post)
    decreases l
  {
    var rest := if l.LastItem? then post else ShowItems(l.more, post);
    var c := if l.LastItem? then ']' else ',';
    var tail := l.trail + ([c] + rest);
    TrailEnds(l.trail, c, rest);
    ReadDoc(scan, l.item, tail);
    var r := Meaning(scan, l.item);
    R.ItemThen(scan, ShowItems(l, post), acc, r, tail, SkipComments(tail));
    if r.Some? && l.NextItem? {
      ReadItemList(scan, l.more, acc + [r.value], post);
      ItemsOnward(scan, l, acc, r.value, post);
    } else {
      assert r.Some? ==> ItemsMeaning(scan, l) == Some([r.value] + []) && [r.value] + [] == [r.value];
    }
  }

  lemma ItemsOnward(scan: string -> bool, l: Items, acc: seq<Value>, x: Value, post: string)
    requires WellFormedItems(l) && l.NextItem? && Meaning(scan, l.item) == Some(x)
    ensures ItemsRead(scan, l, acc, post) == ItemsRead(scan, l.more, acc + [x], post)
  {
    var r := ItemsMeaning(scan, l.more);
    if r.Some? { assert acc + ([x] + r.value) == (acc + [x]) + r.value; }
  }

  lemma {:induction false} ReadMemberList(scan: string -> bool, l: Members, acc: seq<Member>, prev: string, post: string)
    requires WellFormedMembers(l)
    ensures ReadMembers(scan, ShowMembers(l, post), acc, prev) == MembersRead(scan, l, acc, post)
    decreases l
  {
    var rest := if l.LastMember? then post else ShowMembers(l.more, post);
    var c := if l.LastMember? then '}' else ',';
    var tail := l.trail + ([c] + rest);
    TrailEnds(l.trail, c, rest);
    ReadDoc(scan, l.value, tail);
    var r, name := Meaning(scan, l.value), PiecesMeaning(l.name);
    MemberThen(scan, l, Show(l.value, tail), acc, prev, r, tail, ShowMembers(l, post));
    if r.Some? {
      var m := Member(CString(name), r.value);
      if l.NextMember? {
        ReadMemberList(scan, l.more, Put(acc, m.name, m.value), name, post);
        MembersOnward(scan, l, acc, m, post);
      } else {
        PutAllOne(acc, m, []);
      }
    }
  }

  /** One turn of the loop on a member of the grammar. */
  lemma MemberThen(scan: string -> bool, l: Members, value: string, acc: seq<Member>, prev: string,
                   r: Option<Value>, tail: string, s: string)
    requires WellFormedMembers(l) && s == l.lead + (Quotation(l.name) + (l.gap + ([':'] + value)))
    requires ReadValue(scan, value) == Leaf(r, tail)
    requires ReadToken(tail).kind == ObjectEnd || ReadToken(tail).kind == Comma
    ensures ReadMembers(scan, s, acc, prev)
            == match r
               case None => Failed
               case Some(x) =>
                 var more, t := Put(acc, CString(PiecesMeaning(l.name)), x), ReadToken(tail);
                 if t.kind == ObjectEnd then Got(Obj(more), t.rest)
                 else ReadMembers(scan, t.rest, more, PiecesMeaning(l.name))
  {
    var colon := l.gap + ([':'] + value);
    TokenAfterBlanks(l.lead, Quotation(l.name) + colon);
    QuotationIsToken(l.name, colon);
    TokenAfterBlanks(l.gap, [':'] + value);
    R.Punctuation(':', value);
    R.MemberThen(scan, s, acc, prev, PiecesMeaning(l.name), colon, value, r, tail, ReadToken(tail));
  }

  lemma MembersOnward(scan: string -> bool, l: Members, acc: seq<Member>, m: Member, post: string)
    requires WellFormedMembers(l) && l.NextMember? && Meaning(scan, l.value) == Some(m.value)
    requires m.name == CString(PiecesMeaning(l.name))
    ensures MembersRead(scan, l, acc, post) == MembersRead(scan, l.more, Put(acc, m.name, m.value), post)
  {
    var r := PairsMeaning(scan, l.more);
    if r.Some? { PutAllOne(acc, m, r.value); }
  }

  /** A document of the grammar is parsed as what it stands for, whatever blanks
      surround it. */
  lemma ParseDoc(scan: string -> bool, d: Doc, trail: string)
    requires WellFormed(d) && Blank(trail)
    ensures Parse(scan, Show(d, trail)) == Meaning(scan, d)
  {
    assert trail != [] ==> trail[0] in trail;
    ReadDoc(scan, d, trail);
  }

  // ------------------------------------------------------------- comments

  lemma {:induction false} ScanToStarSlash(c: string, s: string)
    requires forall i :: 0 <= i < |c| - 1 ==> !(c[i] == '*' && c[i + 1] == '/')
    ensures ScanCStyle(c + (['*', '/'] + s)) == Scan(true, |c| + 2)
  {
    var t := c + (['*', '/'] + s);
    if c != [] {
      var rest := c[1..];
      assert forall i :: 0 <= i < |rest| ==> rest[i] == c[i + 1];
      ScanToStarSlash(rest, s);
      assert t[1..] == rest + (['*', '/'] + s);
      assert t[1] == if |c| > 1 then c[1] else '*';
    }
  }

  lemma {:induction false} ScanToLineEnd(c: string, s: string)
    requires '\r' !in c && '\n' !in c
    ensures ScanLine(c + (['\n'] + s)) == |c| + 1
  {
    var t := c + (['\n'] + s);
    if c != [] {
      assert c[0] in c && forall x :: x in c[1..] ==> x in c;
      ScanToLineEnd(c[1..], s);
      assert t[1..] == c[1..] + (['\n'] + s);
    }
  }

  /** A comment token in front of a value makes no difference. */
  lemma ValueAfterToken(scan: string -> bool, text: string, s: string)
    requires text != [] && !IsSpace(text[0]) && Lex(text + s) == (Comment, |text|)
    ensures ReadValue(scan, text + s) == ReadValue(scan, s)
  {
    var all := text + s;
    assert all[0] == text[0] && all[..|text|] == text && all[|text|..] == s;
    assert SkipComments(all) == SkipComments(s);
  }

  /** A comment of either kind in front of a value makes no difference. */
  lemma ValueAfterComment(scan: string -> bool, c: string, s: string)
    ensures (forall i :: 0 <= i < |c| - 1 ==> !(c[i] == '*' && c[i + 1] == '/'))
            ==> ReadValue(scan, ['/', '*'] + c + ['*', '/'] + s) == ReadValue(scan, s)
    ensures '\r' !in c && '\n' !in c ==> ReadValue(scan, ['/', '/'] + c + ['\n'] + s) == ReadValue(scan, s)
  {
    if forall i :: 0 <= i < |c| - 1 ==> !(c[i] == '*' && c[i + 1] == '/') {
      ScanToStarSlash(c, s);
      CommentToken(scan, ['/', '*'], c, ['*', '/'], s);
    }
    if '\r' !in c && '\n' !in c {
      ScanToLineEnd(c, s);
      CommentToken(scan, ['/', '/'], c, ['\n'], s);
    }
  }

  lemma CommentToken(scan: string -> bool, open: string, c: string, close: string, s: string)
    requires |open| == 2 && open[0] == '/'
    requires if open[1] == '*' then ScanCStyle(c + (close + s)) == Scan(true, |c| + |close|)
             else open[1] == '/' && ScanLine(c + (close + s)) == |c| + |close|
    ensures ReadValue(scan, open + c + close + s) == ReadValue(scan, s)
  {
    var text, inner := open + c + close, c + (close + s);
    CommentSplit(open, c, close, s);
    ValueAfterToken(scan, text, s);
  }

  lemma CommentSplit(open: string, c: string, close: string, s: string)
    requires |open| == 2
    ensures var all := open + c + close + s;
            all[0] == open[0] && all[1..][0] == open[1] && all[1..][1..] == c + (close + s)
  {
  }

  /** The members of an object in a document: sorted by name, the last value of a
      repeated name, nothing else. */
  lemma DocMembers(scan: string -> bool, d: Doc, trail: string, pairs: seq<Member>)
    requires WellFormed(d) && Blank(trail) && d.body.Members? && WellFormedBody(d.body) && PairsMeaning(scan, d.body.members) == Some(pairs)
    ensures var r := Parse(scan, Show(d, trail));
            r.Some? && r.value.Obj? && Sorted(r.value.members) && forall m :: m in r.value.members <==> LastOf(pairs, m)
  {
    ParseDoc(scan, d, trail);
    forall m ensures m in PutAll([], pairs) <==> LastOf(pairs, m) {
      PutAllExact([], pairs, m);
    }
    PutAllExact([], pairs, Member("", Null));
  }
}
