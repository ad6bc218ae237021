/** JSON values as the bus exchanges them (3rd_tools/jsoncpp/json_value.cpp). */
module JsonValues {

  const MIN_INT: int := -0x8000_0000
  const MAX_INT: int := 0x7fff_ffff
  const MAX_UINT: int := 0xffff_ffff

  /** A character is one byte of the document. A real number is kept as the text
      it is printed as or scanned from: formatting and scanning doubles is the C
      library's business. */
  datatype Value =
    | Null
    | Bool(b: bool)
    | Int(i: int)
    | UInt(u: nat)
    | Real(text: string)
    | Str(s: string)
    | Arr(items: seq<Value>)
    | Obj(members: seq<Member>)

  /** One entry of the ordered map of an object. */
  datatype Member = Member(name: string, value: Value)

  /** `strcmp(a, b) < 0`. */
  predicate Less(a: string, b: string) {
    b != [] && (a == [] || a[0] < b[0] || (a[0] == b[0] && Less(a[1..], b[1..])))
  }

  lemma {:induction false} LessIsOrder(a: string, b: string, c: string)
    ensures !Less(a, a)
    ensures Less(a, b) ==> !Less(b, a)
    ensures Less(a, b) && Less(b, c) ==> Less(a, c)
    ensures a == b || Less(a, b) || Less(b, a)
  {
    if a != [] && b != [] {
      LessIsOrder(a[1..], b[1..], if c == [] then [] else c[1..]);
      if a[0] == b[0] && a[1..] == b[1..] {
        assert a == [a[0]] + a[1..] && b == [b[0]] + b[1..];
      }
    }
    if a != [] { LessIsOrder(a[1..], [], []); }
  }

  /** What a C string keeps of `s`: everything before the first zero byte. */
  function CString(s: string): string {
    if s == [] || s[0] == '\0' then [] else [s[0]] + CString(s[1..])
  }

  lemma {:induction false} CStringIsWhole(s: string)
    requires '\0' !in s
    ensures CString(s) == s
  {
    if s != [] {
      CStringIsWhole(s[1..]);
      assert s == [s[0]] + s[1..];
    }
  }

  /** `currentValue()[name] = value`: replace the entry or insert it in order. */
  function Put(members: seq<Member>, name: string, value: Value): seq<Member> {
    if members == [] || Less(name, members[0].name) then [Member(name, value)] + members
    else if name == members[0].name then [Member(name, value)] + members[1..]
    else [members[0]] + Put(members[1..], name, value)
  }

  predicate Sorted(members: seq<Member>) {
    forall i, j :: 0 <= i < j < |members| ==> Less(members[i].name, members[j].name)
  }

  /** Inserting past the last key appends. */
  lemma {:induction false} PutLast(members: seq<Member>, name: string, value: Value)
    requires forall m :: m in members ==> Less(m.name, name)
    ensures Put(members, name, value) == members + [Member(name, value)]
  {
    if members != [] {
      LessIsOrder(members[0].name, name, name);
      PutLast(members[1..], name, value);
      assert members == [members[0]] + members[1..];
    }
  }

  /** Inserting keeps the keys in order. */
  lemma {:induction false} PutSorted(members: seq<Member>, name: string, value: Value)
    requires Sorted(members)
    ensures Sorted(Put(members, name, value))
    ensures forall m :: m in Put(members, name, value) ==> m in members || m == Member(name, value)
  {
    if members != [] {
      var rest := members[1..];
      LessIsOrder(name, members[0].name, name);
      PutSorted(rest, name, value);
      var first, p := members[0].name, Put(members, name, value);
      if Less(name, first) {
        forall j | 0 <= j < |members| ensures Less(name, members[j].name) {
          LessIsOrder(name, first, members[j].name);
        }
      } else if name != first {
        forall m | m in Put(rest, name, value) ensures Less(first, m.name) {
          if m in rest {
            var j :| 0 <= j < |rest| && rest[j] == m;
            assert members[j + 1] == m;
          }
        }
      }
    }
  }

  /** The entry under `name` is the new one; every other entry stays. */
  lemma {:induction false} PutExact(members: seq<Member>, name: string, value: Value, m: Member)
    requires Sorted(members)
    ensures m in Put(members, name, value) <==> m == Member(name, value) || (m in members && m.name != name)
  {
    if members != [] {
      var rest, first := members[1..], members[0].name;
      assert members == [members[0]] + rest;
      PutExact(rest, name, value, m);
      if m in rest {
        var j :| 0 <= j < |rest| && rest[j] == m;
        assert Less(first, members[j + 1].name) && members[j + 1] == m;
        LessIsOrder(name, first, m.name);
      }
      LessIsOrder(name, first, name);
    }
  }

  /** Entries put one after the other. */
  function PutAll(members: seq<Member>, pairs: seq<Member>): seq<Member>
    decreases pairs
  {
    if pairs == [] then members else PutAll(Put(members, pairs[0].name, pairs[0].value), pairs[1..])
  }

  /** `m` is the last of `pairs` that has its name. */
  ghost predicate LastOf(pairs: seq<Member>, m: Member) {
    exists i :: 0 <= i < |pairs| && pairs[i] == m && forall j :: i < j < |pairs| ==> pairs[j].name != m.name
  }

  ghost predicate NameIn(pairs: seq<Member>, name: string) {
    exists p :: p in pairs && p.name == name
  }

  /** An object holds, in order of their names, the last pair of every name, and
      what it held before under other names. */
  lemma {:induction false} PutAllExact(members: seq<Member>, pairs: seq<Member>, m: Member)
    requires Sorted(members)
    ensures Sorted(PutAll(members, pairs))
    ensures m in PutAll(members, pairs) <==> LastOf(pairs, m) || (m in members && !NameIn(pairs, m.name))
    decreases pairs
  {
    if pairs != [] {
      var p, rest := pairs[0], pairs[1..];
      PutSorted(members, p.name, p.value);
      PutExact(members, p.name, p.value, m);
      PutAllExact(Put(members, p.name, p.value), rest, m);
      LastTail(pairs, m);
    }
  }

  lemma LastTail(pairs: seq<Member>, m: Member)
    requires pairs != []
    ensures LastOf(pairs, m) <==> LastOf(pairs[1..], m) || (pairs[0] == m && !NameIn(pairs[1..], m.name))
    ensures NameIn(pairs, m.name) <==> pairs[0].name == m.name || NameIn(pairs[1..], m.name)
  {
    var p, rest := pairs[0], pairs[1..];
    assert pairs == [p] + rest;
    LastDown(p, rest, m);
    LastUp(p, rest, m);
  }

  lemma LastDown(p: Member, rest: seq<Member>, m: Member)
    ensures LastOf([p] + rest, m) ==> LastOf(rest, m) || (p == m && !NameIn(rest, m.name))
  {
    var pairs := [p] + rest;
    if LastOf(pairs, m) {
      var i :| 0 <= i < |pairs| && pairs[i] == m && forall j :: i < j < |pairs| ==> pairs[j].name != m.name;
      forall j | i <= j < |rest| ensures rest[j].name != m.name {
        assert pairs[j + 1] == rest[j];
      }
      if i > 0 {
        assert rest[i - 1] == m;
      }
    }
  }

  lemma LastUp(p: Member, rest: seq<Member>, m: Member)
    ensures LastOf(rest, m) || (p == m && !NameIn(rest, m.name)) ==> LastOf([p] + rest, m)
  {
    var pairs := [p] + rest;
    if LastOf(rest, m) {
      var i :| 0 <= i < |rest| && rest[i] == m && forall j :: i < j < |rest| ==> rest[j].name != m.name;
      assert pairs[i + 1] == m;
      forall j | i + 1 < j < |pairs| ensures pairs[j].name != m.name {
        assert pairs[j] == rest[j - 1];
      }
    } else if p == m && !NameIn(rest, m.name) {
      assert pairs[0] == m;
      forall j | 0 < j < |pairs| ensures pairs[j].name != m.name {
        assert pairs[j] == rest[j - 1] && rest[j - 1] in rest;
      }
    }
  }

  /** The order of the names and what is there fix an object. */
  lemma {:induction false} SortedIsUnique(a: seq<Member>, b: seq<Member>)
    requires Sorted(a) && Sorted(b)
    requires forall m :: m in a <==> m in b
    ensures a == b
  {
    if b != [] {
      assert b[0] in a;
    }
    if a != [] {
      assert a[0] in b;
      assert b[0] in a;
      SameFirst(a, b);
      TailMembers(a, b);
      TailMembers(b, a);
      SortedIsUnique(a[1..], b[1..]);
      assert a == [a[0]] + a[1..] && b == [b[0]] + b[1..];
    }
  }

  lemma LeastFirst(a: seq<Member>, b: seq<Member>)
    requires a != [] && b != [] && Sorted(a) && b[0] in a
    ensures b[0] == a[0] || Less(a[0].name, b[0].name)
  {
    var k :| 0 <= k < |a| && a[k] == b[0];
  }

  lemma SameFirst(a: seq<Member>, b: seq<Member>)
    requires a != [] && b != [] && Sorted(a) && Sorted(b) && a[0] in b && b[0] in a
    ensures a[0] == b[0]
  {
    LeastFirst(a, b);
    LeastFirst(b, a);
    LessIsOrder(a[0].name, b[0].name, a[0].name);
  }

  lemma TailMembers(a: seq<Member>, b: seq<Member>)
    requires a != [] && b != [] && Sorted(a) && a[0] == b[0]
    requires forall m :: m in a ==> m in b
    ensures forall m :: m in a[1..] ==> m in b[1..]
  {
    forall m | m in a[1..] ensures m in b[1..] {
      var k :| 0 <= k < |a[1..]| && a[1..][k] == m;
      assert a[k + 1] == m && m in b && b == [b[0]] + b[1..];
      LessIsOrder(a[0].name, m.name, m.name);
      LessIsOrder(m.name, m.name, m.name);
    }
  }

  /** What a `Value` object can be: 32-bit integers, C strings, keys in order. */
  predicate Valid(v: Value) {
    match v
    case Int(i) => MIN_INT <= i <= MAX_INT
    case UInt(u) => u <= MAX_UINT
    case Str(s) => '\0' !in s
    case Arr(items) => forall x :: x in items ==> Valid(x)
    case Obj(members) => Sorted(members) && forall m :: m in members ==> '\0' !in m.name && Valid(m.value)
    case _ => true
  }

  /** No real number anywhere inside. */
  predicate NoReal(v: Value) {
    match v
    case Real(_) => false
    case Arr(items) => forall x :: x in items ==> NoReal(x)
    case Obj(members) => forall m :: m in members ==> NoReal(m.value)
    case _ => true
  }
}
