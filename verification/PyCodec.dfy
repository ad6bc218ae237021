/** The text codec of the Python port (PyPort/NetMsgBusDataDef.py): key=value fields
    joined by `&`, values escaped in two passes, and a field found by searching the
    whole text for its key. */
module PyCodec {

  datatype Option<T> = None | Some(value: T)

  // ------------------------------------------------------------ the code

  /** `str.replace`: leftmost, non-overlapping. */
  function Replace(s: string, old_: string, new_: string): string
    requires old_ != ""
    decreases |s|
  {
    if |s| < |old_| then s
    else if s[..|old_|] == old_ then new_ + Replace(s[|old_|..], old_, new_)
    else [s[0]] + Replace(s[1..], old_, new_)
  }

  /** `str.find`. */
  function Find(s: string, key: string): (r: int)
    requires key != ""
    ensures -1 <= r && (r >= 0 ==> r + |key| <= |s|)
    decreases |s|
  {
    if |s| < |key| then -1
    else if s[..|key|] == key then 0
    else
      var r := Find(s[1..], key);
      if r == -1 then -1 else r + 1
  }

  function EncodeMsgKeyValue(s: string): string {
    Replace(Replace(s, "%", "%25"), "&", "%26")
  }

  function DecodeMsgKeyValue(s: string): string {
    Replace(Replace(s, "%26", "&"), "%25", "%")
  }

  /** The part of `GetMsgKey` before decoding. */
  function RawValue(content: string, key: string): string
    requires key != ""
  {
    var start := Find(content, key);
    if start == -1 then "" else ValueFrom(content, start, |key|)
  }

  /** What is read once a key of length `len` has been found at `start`. */
  function ValueFrom(content: string, start: nat, len: nat): string
    requires start + len <= |content|
  {
    var from, end := start + len, Find(content[start..], "&");
    if end == -1 then content[from..]
    else if from <= start + end then content[from..start + end]
    else ""
  }

  function GetMsgKey(content: string, key: string): string {
    DecodeMsgKeyValue(RawValue(content, key + "="))
  }

  function GetMsgSender(content: string): string { GetMsgKey(content, "msgsender") }
  function GetMsgId(content: string): string { GetMsgKey(content, "msgid") }
  function GetMsgParam(content: string): string { GetMsgKey(content, "msgparam") }

  function MakeMsgNetData(msgid: string, msgparam: string, msgsender: string): string {
    Assembled(EncodeMsgKeyValue(msgid), EncodeMsgKeyValue(msgparam), EncodeMsgKeyValue(msgsender))
  }

  function Assembled(msgid: string, msgparam: string, msgsender: string): string {
    var text := "msgid=" + msgid + "&msgparam=" + msgparam;
    if |msgsender| == 0 then text else text + "&msgsender=" + msgsender + "\0"
  }

  // ------------------------------------------------------------ escaping

  /** Both passes at once, and the text between the two decoding passes. */
  function Escaped(s: string): string {
    if s == "" then ""
    else (if s[0] == '%' then "%25" else if s[0] == '&' then "%26" else [s[0]]) + Escaped(s[1..])
  }

  function Halfway(s: string): string {
    if s == "" then "" else (if s[0] == '%' then "%25" else [s[0]]) + Halfway(s[1..])
  }

  /** One character in front of a text, for a pattern that does not start there. */
  lemma ReplaceSkip(c: char, t: string, old_: string, new_: string)
    requires old_ != "" && c != old_[0]
    ensures Replace([c] + t, old_, new_) == [c] + Replace(t, old_, new_)
  {
    var s := [c] + t;
    assert s[1..] == t;
    if |s| >= |old_| {
      assert s[..|old_|][0] == c;
    }
  }

  lemma ReplaceSkipThree(a: char, b: char, c: char, t: string, old_: string, new_: string)
    requires old_ != "" && a != old_[0] && b != old_[0] && c != old_[0]
    ensures Replace([a, b, c] + t, old_, new_) == [a, b, c] + Replace(t, old_, new_)
  {
    var r := Replace(t, old_, new_);
    ReplaceSkip(c, t, old_, new_);
    ReplaceSkip(b, [c] + t, old_, new_);
    ReplaceSkip(a, [b] + ([c] + t), old_, new_);
    assert [a, b, c] + t == [a] + ([b] + ([c] + t));
    assert [a, b, c] + r == [a] + ([b] + ([c] + r));
  }

  lemma ReplaceHit(t: string, old_: string, new_: string)
    requires old_ != ""
    ensures Replace(old_ + t, old_, new_) == new_ + Replace(t, old_, new_)
  {
    var s := old_ + t;
    assert s[..|old_|] == old_ && s[|old_|..] == t;
  }

  /** The other of the two escapes in front of a text. */
  lemma ReplaceOther(a: char, b: char, t: string, new_: string)
    requires a != b && a != '%' && b != '%'
    ensures Replace(['%', '2', a] + t, ['%', '2', b], new_) == ['%', '2', a] + Replace(t, ['%', '2', b], new_)
  {
    var old_ := ['%', '2', b];
    var s := ['%', '2', a] + t;
    assert s[..3] == ['%', '2', a] != old_;
    assert s[1..] == ['2'] + ([a] + t);
    ReplaceSkip('2', [a] + t, old_, new_);
    ReplaceSkip(a, t, old_, new_);
    assert s[0] == '%';
    calc {
      Replace(s, old_, new_);
      ['%'] + (['2'] + ([a] + Replace(t, old_, new_)));
      ['%', '2', a] + Replace(t, old_, new_);
    }
  }

  lemma {:induction false} FirstPass(s: string)
    ensures Replace(s, "%", "%25") == Halfway(s)
  {
    if s != "" {
      FirstPass(s[1..]);
      assert s == [s[0]] + s[1..];
      if s[0] == '%' { ReplaceHit(s[1..], "%", "%25"); } else { ReplaceSkip(s[0], s[1..], "%", "%25"); }
    }
  }

  lemma {:induction false} SecondPass(s: string)
    ensures Replace(Halfway(s), "&", "%26") == Escaped(s)
  {
    if s != "" {
      SecondPass(s[1..]);
      var t := Halfway(s[1..]);
      if s[0] == '%' {
        ReplaceSkipThree('%', '2', '5', t, "&", "%26");
      } else if s[0] == '&' {
        ReplaceHit(t, "&", "%26");
      } else {
        ReplaceSkip(s[0], t, "&", "%26");
      }
    }
  }

  lemma {:induction false} ThirdPass(s: string)
    ensures Replace(Escaped(s), "%26", "&") == Halfway(s)
  {
    if s != "" {
      ThirdPass(s[1..]);
      var t := Escaped(s[1..]);
      if s[0] == '%' {
        ReplaceOther('5', '6', t, "&");
      } else if s[0] == '&' {
        ReplaceHit(t, "%26", "&");
      } else {
        ReplaceSkip(s[0], t, "%26", "&");
      }
    }
  }

  lemma {:induction false} FourthPass(s: string)
    ensures Replace(Halfway(s), "%25", "%") == s
  {
    if s != "" {
      FourthPass(s[1..]);
      var t := Halfway(s[1..]);
      if s[0] == '%' { ReplaceHit(t, "%25", "%"); } else { ReplaceSkip(s[0], t, "%25", "%"); }
    }
  }

  lemma EncodeIsEscaped(s: string)
    ensures EncodeMsgKeyValue(s) == Escaped(s)
  {
    FirstPass(s);
    SecondPass(s);
  }

  /** Decoding undoes encoding, for every text. */
  lemma DecodeEncode(s: string)
    ensures DecodeMsgKeyValue(EncodeMsgKeyValue(s)) == s
  {
    EncodeIsEscaped(s);
    ThirdPass(s);
    FourthPass(s);
  }

  lemma {:induction false} EscapedHasNoAmp(s: string)
    ensures '&' !in EncodeMsgKeyValue(s) && '&' !in Escaped(s)
  {
    EncodeIsEscaped(s);
    if s != "" {
      EscapedHasNoAmp(s[1..]);
    }
  }

  // ------------------------------------------------------------ searching

  predicate OccursAt(s: string, key: string, i: nat) {
    i + |key| <= |s| && s[i..i + |key|] == key
  }

  predicate Contains(s: string, key: string) {
    exists i :: 0 <= i <= |s| && OccursAt(s, key, i)
  }

  /** The text after the first occurrence of `key`. */
  function After(s: string, key: string): Option<string>
    requires key != ""
    decreases |s|
  {
    if |s| < |key| then None
    else if s[..|key|] == key then Some(s[|key|..])
    else After(s[1..], key)
  }

  lemma OccursNext(s: string, key: string, i: nat)
    requires s != "" && i < |s|
    ensures OccursAt(s[1..], key, i) <==> OccursAt(s, key, i + 1)
  {
    if i + 1 + |key| <= |s| {
      assert s[1..][i..i + |key|] == s[i + 1..i + 1 + |key|];
    }
  }

  lemma OccursLater(s: string, key: string)
    requires key != "" && |s| >= |key| && s[..|key|] != key
    ensures forall i: nat :: OccursAt(s, key, i) ==> i > 0 && OccursAt(s[1..], key, i - 1)
    ensures forall i: nat :: OccursAt(s[1..], key, i) ==> OccursAt(s, key, i + 1)
  {
    assert !OccursAt(s, key, 0);
    forall i: nat | OccursAt(s, key, i) ensures i > 0 && OccursAt(s[1..], key, i - 1) {
      OccursNext(s, key, i - 1);
    }
    forall i: nat | OccursAt(s[1..], key, i) ensures OccursAt(s, key, i + 1) {
      OccursNext(s, key, i);
    }
  }

  /** `Find` gives the first occurrence, and -1 exactly when there is none. */
  lemma {:induction false} FindMeans(s: string, key: string)
    requires key != ""
    ensures var r := Find(s, key);
            && (r >= 0 ==> OccursAt(s, key, r))
            && (forall i: nat :: OccursAt(s, key, i) ==> 0 <= r <= i)
    decreases |s|
  {
    if |s| >= |key| {
      if s[..|key|] == key {
        assert OccursAt(s, key, 0);
      } else {
        FindMeans(s[1..], key);
        OccursLater(s, key);
      }
    }
  }

  lemma {:induction false} FindAfter(s: string, key: string)
    requires key != ""
    ensures var r := Find(s, key);
            After(s, key) == if r == -1 then None else Some(s[r + |key|..])
    decreases |s|
  {
    if |s| >= |key| && s[..|key|] != key {
      FindAfter(s[1..], key);
      var r := Find(s[1..], key);
      if r >= 0 {
        assert s[1..][r + |key|..] == s[r + 1 + |key|..];
      }
    }
  }

  // ------------------------------------------------------------ fields

  /** A text in front of which the key cannot start. */
  lemma AfterSkip(c: char, t: string, key: string)
    requires key != "" && c != key[0]
    ensures After([c] + t, key) == After(t, key)
  {
    var s := [c] + t;
    assert s[1..] == t;
    if |s| >= |key| {
      assert s[..|key|][0] == c;
    } else {
      assert After(t, key) == None;
    }
  }

  predicate Mismatch(p: string, key: string, i: nat) {
    exists j :: 0 <= j < |key| && i + j < |p| && p[i + j] != key[j]
  }

  /** If a key can start nowhere in `p`, the search begins behind it. */
  lemma {:induction false} AfterPrefix(p: string, t: string, key: string)
    requires key != "" && forall i :: 0 <= i < |p| ==> Mismatch(p, key, i)
    ensures After(p + t, key) == After(t, key)
    decreases |p|
  {
    if p == "" {
      assert p + t == t;
    } else {
      var s := p + t;
      assert Mismatch(p, key, 0);
      if |s| >= |key| {
        var j :| 0 <= j < |key| && 0 + j < |p| && p[0 + j] != key[j];
        assert s[..|key|][j] == p[j];
      } else {
        assert After(t, key) == None;
      }
      forall i | 0 <= i < |p[1..]| ensures Mismatch(p[1..], key, i) {
        assert Mismatch(p, key, i + 1);
        var j :| 0 <= j < |key| && i + 1 + j < |p| && p[i + 1 + j] != key[j];
        assert p[1..][i + j] != key[j];
      }
      AfterPrefix(p[1..], t, key);
      assert s[1..] == p[1..] + t;
    }
  }

  /** A first field without `&`, in front of the rest: the key is found in it, or
      else in the rest; it never straddles the `&`. */
  lemma {:induction false} AfterField(a: string, b: string, key: string)
    requires key != "" && '&' !in key && '&' !in a
    ensures After(a + ("&" + b), key) ==
            match After(a, key) case Some(r) => Some(r + ("&" + b)) case None => After(b, key)
    decreases |a|
  {
    var s := a + ("&" + b);
    var k := |key|;
    if a == "" {
      assert s == ['&'] + b && key[0] in key;
      AfterSkip('&', b, key);
    } else {
      assert s[0] == a[0] && s[1..] == a[1..] + ("&" + b);
      if |a| >= k {
        assert s[..k] == a[..k] && s[k..] == a[k..] + ("&" + b);
      } else {
        assert After(a[1..], key) == None && a[1..] + ("&" + b) == s[1..];
        if |s| >= k {
          assert s[..k][|a|] == '&' && key[|a|] in key;
        }
      }
      if !(|a| >= k && a[..k] == key) {
        AfterField(a[1..], b, key);
      }
    }
  }

  function Cut(r: string): string {
    var end := Find(r, "&");
    if end == -1 then r else r[..end]
  }

  lemma {:induction false} FindAmp(a: string, b: string)
    requires '&' !in a
    ensures Find(a, "&") == -1
    ensures Find(a + b, "&") == if Find(b, "&") == -1 then -1 else |a| + Find(b, "&")
    decreases |a|
  {
    if a == "" {
      assert a + b == b;
    } else {
      assert (a + b)[0] == a[0] && (a + b)[1..] == a[1..] + b && a[0] in a;
      assert (a + b)[..1] == [a[0]] && a[..1] == [a[0]];
      FindAmp(a[1..], b);
    }
  }

  lemma CutField(a: string, b: string)
    requires '&' !in a
    ensures Cut(a + ("&" + b)) == a && Cut(a) == a
  {
    FindAmp(a, "&" + b);
    assert ("&" + b)[..1] == "&";
    assert (a + ("&" + b))[..|a|] == a;
  }

  lemma {:induction false} FindOccurs(s: string, key: string)
    requires key != ""
    ensures Find(s, key) >= 0 ==> OccursAt(s, key, Find(s, key))
    decreases |s|
  {
    if |s| >= |key| && s[..|key|] != key {
      FindOccurs(s[1..], key);
      if Find(s[1..], key) >= 0 {
        OccursNext(s, key, Find(s[1..], key));
      }
    }
  }

  /** The value of a key that stands at `start` ends at the next `&` behind it. */
  lemma ValueAt(content: string, start: nat, k: string)
    requires OccursAt(content, k, start) && '&' !in k
    ensures ValueFrom(content, start, |k|) == Cut(content[start + |k|..])
  {
    var from := start + |k|;
    var r := content[from..];
    assert content[start..] == k + r;
    FindAmp(k, r);
    var e := Find(r, "&");
    if e != -1 {
      assert content[from..from + e] == r[..e];
    }
  }

  function Shown(found: Option<string>): string {
    match found case None => "" case Some(r) => Cut(r)
  }

  /** What `GetMsgKey` reads: the text from the first `key=` up to the next `&`. */
  lemma RawValueIs(content: string, k: string)
    requires k != "" && '&' !in k
    ensures RawValue(content, k) == Shown(After(content, k))
  {
    FindAfter(content, k);
    FindOccurs(content, k);
    if Find(content, k) != -1 {
      RawValueFound(content, k, Find(content, k));
    }
  }

  lemma RawValueFound(content: string, k: string, start: nat)
    requires k != "" && '&' !in k && Find(content, k) == start && OccursAt(content, k, start)
    ensures RawValue(content, k) == Cut(content[start + |k|..])
  {
    ValueAt(content, start, k);
  }

  /** Nothing of an escape. */
  predicate Plain(key: string) {
    forall c :: c in key ==> c != '%' && c != '&' && c != '2' && c != '5' && c != '6'
  }

  lemma {:induction false} PrefixEscaped(s: string, key: string)
    requires Plain(key)
    ensures key <= Escaped(s) <==> key <= s
    ensures key <= s ==> Escaped(s)[|key|..] == Escaped(s[|key|..])
    decreases |key|
  {
    if key == "" {
      assert Escaped(s)[0..] == Escaped(s) && s[0..] == s;
    } else if s != "" {
      assert key[0] in key;
      EscapedHead(s);
      if s[0] == key[0] {
        assert forall c :: c in key[1..] ==> c in key;
        PrefixEscaped(s[1..], key[1..]);
        PrefixTail(s, key, Escaped(s), Escaped(s[1..]));
      } else {
        DifferentHead(key, s);
        DifferentHead(key, Escaped(s));
      }
    }
  }

  lemma EscapedHead(s: string)
    requires s != ""
    ensures Escaped(s) != ""
    ensures if s[0] == '%' || s[0] == '&' then Escaped(s)[0] == '%' else Escaped(s) == [s[0]] + Escaped(s[1..])
  {
  }

  lemma DifferentHead(key: string, s: string)
    requires key != "" && s != "" && key[0] != s[0]
    ensures !(key <= s)
  {
  }

  /** What holds behind an equal first character holds with it. */
  lemma PrefixTail(s: string, key: string, e: string, t: string)
    requires s != "" && key != "" && s[0] == key[0] && e == [s[0]] + t
    requires key[1..] <= t <==> key[1..] <= s[1..]
    requires key[1..] <= s[1..] ==> t[|key| - 1..] == Escaped(s[1..][|key| - 1..])
    ensures key <= e <==> key <= s
    ensures key <= s ==> e[|key|..] == Escaped(s[|key|..])
  {
    PrefixStep(s[0], key[1..], t);
    PrefixStep(s[0], key[1..], s[1..]);
    assert key == [s[0]] + key[1..] && s == [s[0]] + s[1..];
    if key <= s {
      assert s[1..][|key| - 1..] == s[|key|..];
    }
  }

  /** One equal character in front of a key and a text. */
  lemma PrefixStep(c: char, key: string, s: string)
    ensures [c] + key <= [c] + s <==> key <= s
    ensures key <= s ==> ([c] + s)[1 + |key|..] == s[|key|..]
  {
    if [c] + key <= [c] + s {
      assert key == ([c] + key)[1..] == ([c] + s)[1..1 + |key|] == s[..|key|];
    }
  }

  /** A key is found in an escaped text where it is found in the text itself. */
  lemma {:induction false} AfterEscaped(s: string, key: string)
    requires key != "" && Plain(key)
    ensures After(Escaped(s), key) == match After(s, key) case None => None case Some(r) => Some(Escaped(r))
    decreases |s|
  {
    var e := Escaped(s);
    PrefixEscaped(s, key);
    assert key[0] in key;
    if key <= s {
      assert s[..|key|] == key && e[..|key|] == key;
    } else if s != "" {
      var t := Escaped(s[1..]);
      AfterEscaped(s[1..], key);
      ShortHasNone(s, key);
      if s[0] == '%' || s[0] == '&' {
        var d := if s[0] == '%' then '5' else '6';
        assert e == ['%'] + (['2'] + ([d] + t));
        AfterSkip('%', ['2'] + ([d] + t), key);
        AfterSkip('2', [d] + t, key);
        AfterSkip(d, t, key);
      } else {
        assert e == [s[0]] + t && e[1..] == t;
        ShortHasNone(e, key);
      }
    }
  }

  /** A text that does not start with the key. */
  lemma ShortHasNone(s: string, key: string)
    requires key != "" && s != "" && !(key <= s)
    ensures After(s, key) == After(s[1..], key)
  {
  }

  lemma {:induction false} EscapedAppend(a: string, b: string)
    ensures Escaped(a + b) == Escaped(a) + Escaped(b)
  {
    if a == "" {
      assert a + b == b;
    } else {
      assert (a + b)[0] == a[0] && (a + b)[1..] == a[1..] + b;
      EscapedAppend(a[1..], b);
    }
  }

  lemma DecodeEscaped(s: string)
    ensures DecodeMsgKeyValue(Escaped(s)) == s
  {
    EncodeIsEscaped(s);
    DecodeEncode(s);
  }

  // ------------------------------------------------------------ whole messages

  /** The last field: its value ends with the text. */
  function SenderField(sender: string): string {
    "msgsender=" + (Escaped(sender) + "\0")
  }

  function Tail(param: string, sender: string): string {
    var field := "msgparam=" + Escaped(param);
    if sender == "" then field else field + ("&" + SenderField(sender))
  }

  /** One more field behind a text. */
  lemma Join(text: string, key: string, value: string)
    ensures text + ("&" + key) + value == text + ("&" + (key + value))
  {
  }

  lemma JoinThree(a: string, b: string, c: string)
    ensures (a + ("&" + b)) + ("&" + c) == a + ("&" + (b + ("&" + c)))
  {
  }

  lemma AssembledIs(id: string, param: string, sender: string)
    ensures Assembled(id, param, sender) ==
            ("msgid=" + id) + ("&" + if sender == "" then "msgparam=" + param
                                     else ("msgparam=" + param) + ("&" + ("msgsender=" + (sender + "\0"))))
  {
    assert "&msgparam=" == "&" + "msgparam=" && "&msgsender=" == "&" + "msgsender=";
    Joined("msgid=" + id, "msgparam=", param, "msgsender=", sender, "\0");
  }

  lemma MadeIs(id: string, param: string, sender: string)
    ensures MakeMsgNetData(id, param, sender) == ("msgid=" + Escaped(id)) + ("&" + Tail(param, sender))
  {
    EncodeIsEscaped(id);
    EncodeIsEscaped(param);
    EncodeIsEscaped(sender);
    EscapedEmpty(sender);
    AssembledIs(Escaped(id), Escaped(param), Escaped(sender));
  }

  lemma Joined(first: string, k: string, v: string, l: string, w: string, end: string)
    ensures first + ("&" + k) + v == first + ("&" + (k + v))
    ensures first + ("&" + k) + v + ("&" + l) + w + end == first + ("&" + ((k + v) + ("&" + (l + (w + end)))))
  {
    var text := first + ("&" + k) + v;
    Join(first, k, v);
    Join(text, l, w + end);
    Last(text + ("&" + l), w, end);
    JoinThree(first, k + v, l + (w + end));
  }

  lemma EscapedEmpty(s: string)
    ensures Escaped(s) == "" <==> s == ""
  {
  }

  lemma Last(a: string, b: string, c: string)
    ensures a + b + c == a + (b + c)
  {
  }

  /** A field is found under its own key. */
  lemma OwnKey(key: string, value: string)
    requires key != ""
    ensures After(key + value, key) == Some(value)
  {
    assert (key + value)[..|key|] == key && (key + value)[|key|..] == value;
  }

  lemma IdSkips(t: string)
    ensures After("msgid=" + t, "msgparam=") == After(t, "msgparam=")
    ensures After("msgid=" + t, "msgsender=") == After(t, "msgsender=")
  {
    var p := "msgid=";
    forall i | 0 <= i < |p| ensures Mismatch(p, "msgparam=", i) && Mismatch(p, "msgsender=", i) {
      var j := if i == 0 then 3 else 0;
      assert p[i + j] != "msgparam="[j] && p[i + j] != "msgsender="[j];
    }
    AfterPrefix(p, t, "msgparam=");
    AfterPrefix(p, t, "msgsender=");
  }

  lemma ParamSkips(t: string)
    ensures After("msgparam=" + t, "msgsender=") == After(t, "msgsender=")
  {
    var p := "msgparam=";
    forall i | 0 <= i < |p| ensures Mismatch(p, "msgsender=", i) {
      var j := if i == 0 then 3 else if i == 7 then 1 else 0;
      assert p[i + j] != "msgsender="[j];
    }
    AfterPrefix(p, t, "msgsender=");
  }

  /** What a key search yields from an escaped first field in front of the rest. */
  lemma FirstField(name: string, text: string, rest: string, key: string)
    requires key != "" && '&' !in key && '&' !in name && Plain(key)
    requires After(name + Escaped(text), key) == After(Escaped(text), key)
    ensures After((name + Escaped(text)) + ("&" + rest), key) ==
            match After(text, key) case None => After(rest, key) case Some(r) => Some(Escaped(r) + ("&" + rest))
  {
    EscapedHasNoAmp(text);
    AfterField(name + Escaped(text), rest, key);
    AfterEscaped(text, key);
  }

  lemma CutEscaped(r: string, rest: string)
    ensures Cut(Escaped(r) + ("&" + rest)) == Escaped(r) && Cut(Escaped(r)) == Escaped(r)
  {
    EscapedHasNoAmp(r);
    CutField(Escaped(r), rest);
  }

  lemma RawId(id: string, rest: string)
    ensures RawValue(("msgid=" + Escaped(id)) + ("&" + rest), "msgid=") == Escaped(id)
  {
    var key := "msgid=";
    var content := (key + Escaped(id)) + ("&" + rest);
    RawValueIs(content, key);
    Last(key, Escaped(id), "&" + rest);
    OwnKey(key, Escaped(id) + ("&" + rest));
    CutEscaped(id, rest);
  }

  /** The id always comes back. */
  lemma IdRoundTrip(id: string, param: string, sender: string)
    ensures GetMsgId(MakeMsgNetData(id, param, sender)) == id
  {
    MadeIs(id, param, sender);
    RawId(id, Tail(param, sender));
    assert "msgid" + "=" == "msgid=";
    DecodeEscaped(id);
  }

  lemma RawParamInTail(param: string, sender: string)
    ensures Shown(After(Tail(param, sender), "msgparam=")) == Escaped(param)
  {
    var key, last := "msgparam=", SenderField(sender);
    CutEscaped(param, last);
    if sender == "" {
      OwnKey(key, Escaped(param));
    } else {
      Last(key, Escaped(param), "&" + last);
      OwnKey(key, Escaped(param) + ("&" + last));
    }
  }

  /** A key searched in a field and what follows: its tail there, or else what the
      search gives behind it. */
  lemma RawFirst(name: string, text: string, rest: string, key: string)
    requires key != "" && '&' !in key && '&' !in name && Plain(key)
    requires After(name + Escaped(text), key) == After(Escaped(text), key)
    ensures RawValue((name + Escaped(text)) + ("&" + rest), key) ==
            match After(text, key) case None => Shown(After(rest, key)) case Some(tail) => Escaped(tail)
  {
    RawValueIs((name + Escaped(text)) + ("&" + rest), key);
    FirstField(name, text, rest, key);
    if After(text, key).Some? {
      CutEscaped(After(text, key).value, rest);
    }
  }

  lemma PlainKeys()
    ensures '&' !in "msgid=" && '&' !in "msgparam=" && '&' !in "msgsender="
    ensures Plain("msgparam=") && Plain("msgsender=")
  {
  }

  lemma RawInMessage(id: string, rest: string, key: string)
    requires key == "msgparam=" || key == "msgsender="
    ensures RawValue(("msgid=" + Escaped(id)) + ("&" + rest), key) ==
            match After(id, key) case None => Shown(After(rest, key)) case Some(tail) => Escaped(tail)
  {
    PlainKeys();
    IdSkips(Escaped(id));
    RawFirst("msgid=", id, rest, key);
  }

  lemma RawParam(id: string, param: string, sender: string)
    ensures RawValue(("msgid=" + Escaped(id)) + ("&" + Tail(param, sender)), "msgparam=") ==
            match After(id, "msgparam=") case None => Escaped(param) case Some(tail) => Escaped(tail)
  {
    RawInMessage(id, Tail(param, sender), "msgparam=");
    RawParamInTail(param, sender);
  }

  /** The parameter comes back, except that an id containing `msgparam=` shadows it
      with its own tail. */
  lemma ParamRoundTrip(id: string, param: string, sender: string)
    ensures GetMsgParam(MakeMsgNetData(id, param, sender)) ==
            match After(id, "msgparam=") case None => param case Some(tail) => tail
  {
    MadeIs(id, param, sender);
    RawParam(id, param, sender);
    assert "msgparam" + "=" == "msgparam=";
    DecodeEscaped(match After(id, "msgparam=") case None => param case Some(tail) => tail);
  }

  /** Exactly: unless the id contains `msgparam=` with something else behind it. */
  lemma ParamExact(id: string, param: string, sender: string)
    ensures GetMsgParam(MakeMsgNetData(id, param, sender)) == param <==>
            !Contains(id, "msgparam=") || After(id, "msgparam=") == Some(param)
  {
    ParamRoundTrip(id, param, sender);
    FindMeans(id, "msgparam=");
    FindAfter(id, "msgparam=");
  }

  /** For example: an id may smuggle in a parameter of its own. */
  lemma ShadowedParam(tail: string, param: string, sender: string)
    ensures GetMsgParam(MakeMsgNetData("msgparam=" + tail, param, sender)) == tail
  {
    OwnKey("msgparam=", tail);
    ParamRoundTrip("msgparam=" + tail, param, sender);
  }

  /** What `GetMsgSender` gives: the sender with a NUL behind it, unless the id or
      the parameter shadows it; an absent sender reads as empty. */
  function SenderSeen(id: string, param: string, sender: string): string {
    match After(id, "msgsender=")
    case Some(tail) => tail
    case None =>
      match After(param, "msgsender=")
      case Some(tail) => tail
      case None => if sender == "" then "" else sender + "\0"
  }

  lemma EscapedWithNul(sender: string)
    ensures Escaped(sender + "\0") == Escaped(sender) + "\0"
  {
    var nul := "\0";
    EscapedAppend(sender, nul);
    assert Escaped(nul) == nul + Escaped(nul[1..]) && nul[1..] == "";
  }

  lemma RawSenderLast(sender: string)
    ensures Shown(After(SenderField(sender), "msgsender=")) == Escaped(sender + "\0")
  {
    EscapedWithNul(sender);
    OwnKey("msgsender=", Escaped(sender) + "\0");
    CutEscaped(sender + "\0", "");
  }

  lemma RawSenderInTail(param: string, sender: string)
    ensures Shown(After(Tail(param, sender), "msgsender=")) ==
            match After(param, "msgsender=")
            case Some(tail) => Escaped(tail)
            case None => Escaped(if sender == "" then "" else sender + "\0")
  {
    var key, last := "msgsender=", SenderField(sender);
    ParamSkips(Escaped(param));
    if sender == "" {
      AfterEscaped(param, key);
    } else {
      FirstField("msgparam=", param, last, key);
      RawSenderLast(sender);
    }
    if After(param, key).Some? {
      CutEscaped(After(param, key).value, last);
    }
  }

  lemma RawSender(id: string, param: string, sender: string)
    ensures RawValue(("msgid=" + Escaped(id)) + ("&" + Tail(param, sender)), "msgsender=") ==
            Escaped(SenderSeen(id, param, sender))
  {
    RawInMessage(id, Tail(param, sender), "msgsender=");
    RawSenderInTail(param, sender);
  }

  lemma SenderRoundTrip(id: string, param: string, sender: string)
    ensures GetMsgSender(MakeMsgNetData(id, param, sender)) == SenderSeen(id, param, sender)
  {
    MadeIs(id, param, sender);
    RawSender(id, param, sender);
    assert "msgsender" + "=" == "msgsender=";
    DecodeEscaped(SenderSeen(id, param, sender));
  }
}
