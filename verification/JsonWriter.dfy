/** The compact JSON printer (3rd_tools/jsoncpp/json_writer.cpp). The functions say
    which text a value has; the methods are the code that builds it. */
module JsonWriters {
  import opened JsonValues

  function Digit(d: nat): (c: char)
    requires d < 10
    ensures '0' <= c <= '9' && c as int - '0' as int == d
  {
    (d + '0' as int) as char
  }

  /** Decimal digits of `n`, most significant first. */
  function Digits(n: nat): (s: string)
    ensures |s| >= 1
  {
    if n < 10 then [Digit(n)] else Digits(n / 10) + [Digit(n % 10)]
  }

  function IntText(i: int): string {
    if i < 0 then "-" + Digits(-i) else Digits(i)
  }

  predicate IsControl(c: char) { '\0' < c <= 0x1F as char }

  function HexUpper(d: nat): char
    requires d < 16
  {
    if d < 10 then (d + '0' as int) as char else (d - 10 + 'A' as int) as char
  }

  /** How one character is written inside quotes. */
  function Escape(c: char): string {
    if c == '"' then ['\\', '"']
    else if c == '\\' then ['\\', '\\']
    else if c == 8 as char then ['\\', 'b']
    else if c == 12 as char then ['\\', 'f']
    else if c == '\n' then ['\\', 'n']
    else if c == '\r' then ['\\', 'r']
    else if c == '\t' then ['\\', 't']
    else if IsControl(c) then ['\\', 'u', '0', '0', HexUpper(c as int / 16), HexUpper(c as int % 16)]
    else [c]
  }

  function Escaped(s: string): string {
    if s == [] then [] else Escape(s[0]) + Escaped(s[1..])
  }

  function Quoted(s: string): string { ['"'] + Escaped(s) + ['"'] }

  function Text(v: Value): string
    decreases v, 1
  {
    match v
    case Null => "null"
    case Bool(b) => if b then "true" else "false"
    case Int(i) => IntText(i)
    case UInt(u) => Digits(u)
    case Real(text) => text
    case Str(s) => Quoted(s)
    case Arr(items) => "[" + ItemsText(items, true) + "]"
    case Obj(members) => "{" + MembersText(members, true) + "}"
  }

  function ItemsText(items: seq<Value>, first: bool): string
    decreases items, 0
  {
    if items == [] then ""
    else (if first then "" else ",") + (Text(items[0]) + ItemsText(items[1..], false))
  }

  function MembersText(members: seq<Member>, first: bool): string
    decreases members, 0
  {
    if members == [] then ""
    else (if first then "" else ",")
         + (Quoted(members[0].name) + (":" + (Text(members[0].value) + MembersText(members[1..], false))))
  }

  // ---------------------------------------------------------------- lines

  predicate Visible(s: string) { forall c :: c in s ==> ' ' <= c }

  lemma {:induction false} DigitsVisible(n: nat)
    ensures Visible(Digits(n))
  {
    if n >= 10 {
      DigitsVisible(n / 10);
    }
  }

  lemma {:induction false} EscapedVisible(s: string)
    requires '\0' !in s
    ensures Visible(Escaped(s))
  {
    if s != [] {
      assert s[0] in s;
      EscapeVisible(s[0]);
      EscapedVisible(s[1..]);
    }
  }

  lemma EscapeVisible(c: char)
    requires c != '\0'
    ensures Visible(Escape(c))
  {
    assert ' ' == 0x20 as char;
  }

  /** The text of a value has no control characters, so a document is one line,
      whatever its strings hold. */
  lemma {:induction false} OneLine(v: Value)
    requires Valid(v) && NoReal(v)
    ensures Visible(Text(v))
    decreases v, 1
  {
    match v
    case Int(i) => DigitsVisible(if i < 0 then -i else i);
    case UInt(u) => DigitsVisible(u);
    case Str(s) => EscapedVisible(s);
    case Arr(items) => ItemsOneLine(items, true);
    case Obj(members) => MembersOneLine(members, true);
    case _ =>
  }

  lemma {:induction false} ItemsOneLine(items: seq<Value>, first: bool)
    requires forall x :: x in items ==> Valid(x) && NoReal(x)
    ensures Visible(ItemsText(items, first))
    decreases items, 0
  {
    if items != [] {
      assert items[0] in items;
      OneLine(items[0]);
      ItemsOneLine(items[1..], false);
    }
  }

  lemma {:induction false} MembersOneLine(members: seq<Member>, first: bool)
    requires forall m :: m in members ==> '\0' !in m.name && Valid(m.value) && NoReal(m.value)
    ensures Visible(MembersText(members, first))
    decreases members, 0
  {
    if members != [] {
      assert members[0] in members;
      OneLine(members[0].value);
      EscapedVisible(members[0].name);
      MembersOneLine(members[1..], false);
    }
  }

  // ------------------------------------------------------------ the code

  lemma AppendTwo(a: string, b: string, c: string)
    ensures (a + b) + c == a + (b + c)
  {
  }

  /** `uintToString`: fill a buffer from its end, least significant digit first,
      after a terminating zero; `current` is where the text starts. */
  method UintToString(value: nat, buffer: array<char>) returns (current: nat)
    requires buffer.Length == 32 && value <= MAX_UINT
    modifies buffer
    ensures current < 31 && buffer[31] == '\0' && buffer[current..31] == Digits(value)
  {
    DigitsFit(value, 10);
    ghost var all := Digits(value);
    current := 31;
    buffer[current] := '\0';
    var left := value;
    var done := false;
    while !done
      invariant current <= 31 && buffer[31] == '\0'
      invariant done ==> buffer[current..31] == all && current < 31
      invariant !done ==> Digits(left) + buffer[current..31] == all && |Digits(left)| < current
      decreases !done, left
    {
      ghost var tail := buffer[current..31];
      var d := Digit(left % 10);
      if left >= 10 { assert Digits(left) == Digits(left / 10) + [d]; }
      current := current - 1;
      buffer[current] := d;
      assert buffer[current..31] == [d] + tail;
      if left >= 10 { AppendTwo(Digits(left / 10), [d], tail); }
      left := left / 10;
      done := left == 0;
    }
  }

  lemma {:induction false} DigitsFit(n: nat, k: nat)
    requires k >= 1 && n < Pow10(k)
    ensures |Digits(n)| <= k
  {
    if n >= 10 {
      DigitsFit(n / 10, k - 1);
    }
  }

  function Pow10(k: nat): nat { if k == 0 then 1 else 10 * Pow10(k - 1) }

  predicate NeedsEscape(c: char) {
    c == '"' || c == '\\' || c == '\n' || c == '\r' || c == '\t' || c == 8 as char || c == 12 as char || IsControl(c)
  }

  /** The fast path of `valueToQuotedString` is right: text that needs no escape
      is its own escaped form. */
  lemma {:induction false} PlainIsEscaped(s: string)
    requires forall c :: c in s ==> !NeedsEscape(c)
    ensures Escaped(s) == s
  {
    if s != [] {
      PlainIsEscaped(s[1..]);
      assert s[0] in s;
      assert s == [s[0]] + s[1..];
    }
  }

  lemma {:induction false} EscapedAppend(s: string, c: char)
    ensures Escaped(s + [c]) == Escaped(s) + Escape(c)
  {
    if s == [] {
      assert s + [c] == [c];
    } else {
      EscapedAppend(s[1..], c);
      var t := s + [c];
      assert t[0] == s[0] && t[1..] == s[1..] + [c];
      AppendTwo(Escape(s[0]), Escaped(s[1..]), Escape(c));
    }
  }

  /** `valueToQuotedString`: copy text without special characters, else walk it. */
  method QuoteString(value: string) returns (result: string)
    ensures result == Quoted(value)
  {
    var special := false;
    var i := 0;
    while i < |value| && !special
      invariant 0 <= i <= |value|
      invariant !special ==> forall j :: 0 <= j < i ==> !NeedsEscape(value[j])
      decreases |value| - i, !special
    {
      if NeedsEscape(value[i]) {
        special := true;
      } else {
        i := i + 1;
      }
    }
    if !special {
      PlainIsEscaped(value);
      return "\"" + value + "\"";
    }
    result := "\"";
    i := 0;
    while i < |value|
      invariant 0 <= i <= |value|
      invariant result == ['"'] + Escaped(value[..i])
    {
      assert value[..i + 1] == value[..i] + [value[i]];
      EscapedAppend(value[..i], value[i]);
      AppendTwo(['"'], Escaped(value[..i]), Escape(value[i]));
      result := result + Escape(value[i]);
      i := i + 1;
    }
    assert value[..i] == value;
    result := result + "\"";
  }

  class FastWriter {
    var document: string

    constructor ()
      ensures document == ""
    {
      document := "";
    }

    method Write(root: Value) returns (text: string)
      requires Valid(root)
      modifies this
      ensures text == Text(root) + "\n"
    {
      document := "";
      WriteValue(root);
      document := document + "\n";
      text := document;
    }

    method WriteInt(i: int)
      requires MIN_INT <= i <= MAX_UINT
      modifies this
      ensures document == old(document) + IntText(i)
    {
      var buffer := new char[32](_ => '\0');
      var current := UintToString(if i < 0 then -i else i, buffer);
      if i < 0 {
        assert ['-'] + buffer[current..31] == IntText(i);
        document := document + (['-'] + buffer[current..31]);
      } else {
        document := document + buffer[current..31];
      }
    }

    /** `writeValue`: append the text of `v` to the document. */
    method WriteValue(v: Value)
      requires Valid(v)
      modifies this
      ensures document == old(document) + Text(v)
      decreases v, 1
    {
      match v
      case Null => document := document + "null";
      case Bool(b) => document := document + (if b then "true" else "false");
      case Int(i) => WriteInt(i);
      case UInt(u) => WriteInt(u);
      case Real(text) => document := document + text;
      case Str(s) =>
        var q := QuoteString(s);
        document := document + q;
      case Arr(items) => WriteItems(items);
      case Obj(members) => WriteMembers(members);
    }

    method WriteItems(items: seq<Value>)
      requires forall x :: x in items ==> Valid(x)
      modifies this
      ensures document == old(document) + ("[" + ItemsText(items, true) + "]")
      decreases items, 0
    {
      ghost var goal := document + "[" + ItemsText(items, true);
      document := document + "[";
      var i := 0;
      ghost var left := items;
      while i < |items|
        invariant 0 <= i <= |items| && left == items[i..]
        invariant document + ItemsText(left, i == 0) == goal
      {
        ghost var here, tail := document, ItemsText(items[i + 1..], false);
        assert left[0] == items[i] && left[1..] == items[i + 1..];
        if i > 0 {
          document := document + ",";
        }
        WriteValue(items[i]);
        ItemText(here, if i == 0 then "" else ",", Text(items[i]), tail);
        assert document == here + (if i == 0 then "" else ",") + Text(items[i]);
        left := items[i + 1..];
        i := i + 1;
      }
      Bracketed(old(document), "[", ItemsText(items, true), "]");
      document := document + "]";
    }

    method WriteMembers(members: seq<Member>)
      requires forall m :: m in members ==> Valid(m.value)
      modifies this
      ensures document == old(document) + ("{" + MembersText(members, true) + "}")
      decreases members, 0
    {
      ghost var goal := document + "{" + MembersText(members, true);
      document := document + "{";
      var i := 0;
      ghost var left := members;
      while i < |members|
        invariant 0 <= i <= |members| && left == members[i..]
        invariant document + MembersText(left, i == 0) == goal
      {
        ghost var here, tail := document, MembersText(members[i + 1..], false);
        assert left[0] == members[i] && left[1..] == members[i + 1..];
        if i > 0 {
          document := document + ",";
        }
        ghost var mid := document;
        var q := QuoteString(members[i].name);
        document := document + q;
        document := document + ":";
        WriteValue(members[i].value);
        MemberText(here, mid, q, Text(members[i].value), tail, if i == 0 then "" else ",");
        left := members[i + 1..];
        i := i + 1;
      }
      Bracketed(old(document), "{", MembersText(members, true), "}");
      document := document + "}";
    }
  }

  lemma Bracketed(a: string, open: string, inner: string, close: string)
    ensures ((a + open + inner) + "") + close == a + (open + inner + close)
    ensures (a + open + inner) + "" == a + open + inner
  {
  }

  lemma ItemText(here: string, comma: string, value: string, tail: string)
    ensures (here + comma + value) + tail == here + (comma + (value + tail))
    ensures here + "" == here
  {
  }

  lemma MemberText(here: string, mid: string, name: string, value: string, tail: string, comma: string)
    requires mid == here + comma
    ensures (mid + name + ":" + value) + tail == here + (comma + (name + (":" + (value + tail))))
  {
  }
}
