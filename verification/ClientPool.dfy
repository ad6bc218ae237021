/** The pool of outgoing connections (Core/TcpClientPool.cpp): several connections
    per destination, handed out in turn by a counter. Each block under the lock is one
    step; creating connections counts in one block and appends in others, so other
    threads can come in between. */
module ClientPool {

  datatype Host = Host(ip: string, port: nat)

  /** A connection, its descriptor while it is open, and the destination it reports;
      none if it has no host. */
  datatype Sock = Sock(id: nat, fd: int, hasHost: bool, host: Host)

  datatype Option<T> = None | Some(value: T)

  /** The counter is a C++ `int`, and is converted to a 64-bit `size_t` for the
      remainder. */
  const INT_MAX: int := 0x7FFF_FFFF
  const INT_MIN: int := -0x8000_0000
  const SIZE_RANGE: int := 0x1_0000_0000_0000_0000

  /** `counter++`, on a machine where it wraps. */
  function Increment(c: int): int { if c == INT_MAX then INT_MIN else c + 1 }

  function Index(c: int, n: nat): (i: nat)
    requires n > 0 && INT_MIN <= c <= INT_MAX
    ensures i < n
  {
    (if c < 0 then c + SIZE_RANGE else c) % n
  }

  // ------------------------------------------------------------ taking turns

  /** What `n` consecutive selections return when the counter starts at `c`. */
  function Selections(conns: seq<Sock>, c: nat, n: nat): seq<Sock>
    requires conns != []
    decreases n
  {
    if n == 0 then [] else [conns[c % |conns|]] + Selections(conns, c + 1, n - 1)
  }

  lemma {:induction false} SelectionAt(conns: seq<Sock>, c: nat, n: nat, i: nat)
    requires conns != [] && i < n
    ensures |Selections(conns, c, n)| == n && Selections(conns, c, n)[i] == conns[(c + i) % |conns|]
    decreases n
  {
    if n > 1 {
      SelectionAt(conns, c + 1, n - 1, if i == 0 then 0 else i - 1);
      assert i > 0 ==> (c + 1) + (i - 1) == c + i;
    }
  }

  lemma Rotate(c: nat, i: nat, n: nat)
    requires i < n
    ensures (c + i) % n == if c % n + i < n then c % n + i else c % n + i - n
  {
    var q, r := c / n, c % n;
    assert c == q * n + r;
    if r + i < n {
      DivMod(c + i, n, q, r + i);
    } else {
      DivMod(c + i, n, q + 1, r + i - n);
    }
  }

  lemma DivMod(x: nat, n: nat, q: nat, r: nat)
    requires r < n && x == q * n + r
    ensures x % n == r
  {
    Quotient(x / n, q, n, x % n, r);
  }

  lemma Quotient(p: int, q: int, n: int, s: int, r: int)
    requires p * n + s == q * n + r && 0 <= s < n && 0 <= r < n
    ensures s == r
  {
    var d := p - q;
    assert d * n == p * n - q * n == r - s;
    if d >= 1 {
      AtLeast(d, n);
    } else if d <= -1 {
      AtLeast(-d, n);
    }
  }

  lemma AtLeast(d: int, n: int)
    requires d >= 1 && n > 0
    ensures d * n >= n
  {
    assert d * n == (d - 1) * n + n;
  }

  /** As many selections as there are connections give each of them exactly once,
      wherever the counter stands. */
  lemma {:induction false} EachOnce(conns: seq<Sock>, c: nat)
    requires conns != []
    ensures var k := c % |conns|; Selections(conns, c, |conns|) == conns[k..] + conns[..k]
    ensures multiset(Selections(conns, c, |conns|)) == multiset(conns)
  {
    var n := |conns|;
    var k := c % n;
    var sel, turned := Selections(conns, c, n), conns[k..] + conns[..k];
    SelectionAt(conns, c, n, 0);
    forall i | 0 <= i < n ensures sel[i] == turned[i] {
      SelectionAt(conns, c, n, i);
      Rotate(c, i, n);
    }
    assert sel == turned;
    assert conns == conns[..k] + conns[k..];
  }

  // ------------------------------------------------------------ the pool

  /** `IsSameTcpSock`: a closed connection is the same as no other, not even itself. */
  predicate Same(a: Sock, b: Sock, closed: set<Sock>) {
    a !in closed && b !in closed && a.fd == b.fd
  }

  function Without(conns: seq<Sock>, s: Sock, closed: set<Sock>): seq<Sock> {
    if conns == [] then []
    else (if Same(s, conns[0], closed) then [] else [conns[0]]) + Without(conns[1..], s, closed)
  }

  /** Exactly the open connections with that descriptor go, and only while the one to be
      removed is open itself. */
  lemma {:induction false} WithoutMeans(conns: seq<Sock>, s: Sock, closed: set<Sock>)
    ensures forall x :: multiset(Without(conns, s, closed))[x] == if Same(s, x, closed) then 0 else multiset(conns)[x]
  {
    if conns != [] {
      WithoutMeans(conns[1..], s, closed);
      assert conns == [conns[0]] + conns[1..];
    }
  }

  /** So a connection that has been closed before it is removed stays in the pool. */
  lemma {:induction false} ClosedStays(conns: seq<Sock>, s: Sock, closed: set<Sock>)
    requires s in closed
    ensures Without(conns, s, closed) == conns
  {
    if conns != [] {
      ClosedStays(conns[1..], s, closed);
    }
  }

  datatype Pool = Pool(conns: map<Host, seq<Sock>>, counter: map<Host, int>)

  function ConnsOf(p: Pool, h: Host): seq<Sock> {
    if h in p.conns then p.conns[h] else []
  }

  /** The update that `AddTcpSock` and `CreateTcpSock` share; a destination that is
      already known keeps its counter. */
  function Put(p: Pool, h: Host, s: Sock): Pool {
    if h in p.conns then p.(conns := p.conns[h := p.conns[h] + [s]])
    else Pool(p.conns[h := [s]], p.counter[h := 0])
  }

  /** The destination stays, if only with an empty list, and so does its counter. */
  function Removed(p: Pool, s: Option<Sock>, closed: set<Sock>): Pool {
    if s.Some? && s.value.hasHost && s.value.host in p.conns
    then p.(conns := p.conns[s.value.host := Without(p.conns[s.value.host], s.value, closed)])
    else p
  }

  /** Every destination has a counter. */
  predicate Valid(p: Pool) {
    p.conns.Keys == p.counter.Keys && forall h :: h in p.counter ==> INT_MIN <= p.counter[h] <= INT_MAX
  }

  function Selected(p: Pool, h: Host): Option<Sock>
    requires Valid(p)
  {
    var all := ConnsOf(p, h);
    if all == [] then None else Some(all[Index(p.counter[h], |all|)])
  }

  function Turned(p: Pool, h: Host): Pool {
    if ConnsOf(p, h) == [] || h !in p.counter then p else p.(counter := p.counter[h := Increment(p.counter[h])])
  }

  // ------------------------------------------------------------ all threads together

  /** What a thread is about: `left` more connections to make for a destination. */
  datatype Slot = Free | Creating(host: Host, left: nat)

  /** `added` counts the connections handed to `AddTcpSock`. */
  datatype State = State(pool: Pool, slots: seq<Slot>, added: map<Host, nat>)

  datatype Event =
    | Add(sock: Option<Sock>)
    | Remove(sock: Option<Sock>, closed: set<Sock>) // `closed` are the sockets closed by then
    | Get(host: Host)
    | Count(thread: nat, host: Host, num: int)      // first block of CreateTcpSock
    | Made(thread: nat, made: Option<Sock>)         // connecting came to this; last block

  function Start(threads: nat): State {
    State(Pool(map[], map[]), seq(threads, i => Free), map[])
  }

  function Added(s: State, h: Host): nat { if h in s.added then s.added[h] else 0 }

  function Next(s: State, e: Event): State {
    match e
    case Add(sock) =>
      if !(sock.Some? && sock.value.hasHost) then s
      else
        var h := sock.value.host;
        s.(pool := Put(s.pool, h, sock.value), added := s.added[h := Added(s, h) + 1])
    case Remove(sock, closed) => s.(pool := Removed(s.pool, sock, closed))
    case Get(h) => s.(pool := Turned(s.pool, h))
    case Count(t, h, num) =>
      if t >= |s.slots| || s.slots[t] != Free || num <= |ConnsOf(s.pool, h)| then s
      else s.(slots := s.slots[t := Creating(h, num - |ConnsOf(s.pool, h)|)])
    case Made(t, made) =>
      if t >= |s.slots| || s.slots[t] == Free then s
      else if made == None then s.(slots := s.slots[t := Free])
      else
        var h, left := s.slots[t].host, s.slots[t].left;
        State(Put(s.pool, h, made.value), s.slots[t := if left > 1 then Creating(h, left - 1) else Free], s.added)
  }

  function Run(s: State, es: seq<Event>): State
    decreases |es|
  {
    if es == [] then s else Run(Next(s, es[0]), es[1..])
  }

  // ------------------------------------------------------------ counters and turns

  lemma NextValid(s: State, e: Event)
    requires Valid(s.pool)
    ensures Valid(Next(s, e).pool)
  {
  }

  /** In every run every destination has a counter. */
  lemma {:induction false} CountersExist(s: State, es: seq<Event>)
    requires Valid(s.pool)
    ensures Valid(Run(s, es).pool)
    decreases |es|
  {
    if es != [] {
      NextValid(s, es[0]);
      CountersExist(Next(s, es[0]), es[1..]);
    }
  }

  /** What the selections for `h` in a run return. */
  function Returned(s: State, es: seq<Event>, h: Host): seq<Sock>
    requires Valid(s.pool)
    decreases |es|
  {
    if es == [] then []
    else
      NextValid(s, es[0]);
      var r := Selected(s.pool, h);
      (if es[0] == Get(h) && r.Some? then [r.value] else []) + Returned(Next(s, es[0]), es[1..], h)
  }

  /** No step of the run changes the connections to `h`. */
  predicate Unchanged(s: State, es: seq<Event>, h: Host)
    decreases |es|
  {
    es == [] || (ConnsOf(Next(s, es[0]).pool, h) == ConnsOf(s.pool, h) && Unchanged(Next(s, es[0]), es[1..], h))
  }

  lemma CounterAfter(s: State, e: Event, h: Host)
    requires Valid(s.pool) && ConnsOf(s.pool, h) != []
    ensures h in Next(s, e).pool.counter && h in s.pool.counter
    ensures Next(s, e).pool.counter[h] == if e == Get(h) then Increment(s.pool.counter[h]) else s.pool.counter[h]
  {
  }

  /** The counter passes none of its limits in the selections of the run. */
  ghost predicate NoOverflow(s: State, es: seq<Event>, h: Host)
    requires Valid(s.pool) && ConnsOf(s.pool, h) != []
  {
    0 <= s.pool.counter[h] && s.pool.counter[h] + |Returned(s, es, h)| <= INT_MAX + 1
  }

  /** In every run, whatever else happens in between, selections on unchanged
      connections go round by the counter, until that overflows. */
  lemma {:induction false} SelectionsTakeTurns(s: State, es: seq<Event>, h: Host)
    requires Valid(s.pool) && ConnsOf(s.pool, h) != [] && Unchanged(s, es, h) && NoOverflow(s, es, h)
    ensures var got := Returned(s, es, h); got == Selections(ConnsOf(s.pool, h), s.pool.counter[h], |got|)
    decreases |es|
  {
    if es != [] {
      NextValid(s, es[0]);
      CounterAfter(s, es[0], h);
      var rest := Returned(Next(s, es[0]), es[1..], h);
      if es[0] == Get(h) {
        assert Returned(s, es, h) == [Selected(s.pool, h).value] + rest;
        if rest == [] {
          assert Selections(ConnsOf(s.pool, h), s.pool.counter[h] + 1, 0) == [];
        } else {
          SelectionsTakeTurns(Next(s, es[0]), es[1..], h);
        }
      } else {
        assert Returned(s, es, h) == [] + rest == rest;
        SelectionsTakeTurns(Next(s, es[0]), es[1..], h);
      }
    }
  }

  /** So as many consecutive selections as there are connections return each of them
      exactly once. */
  lemma EachExactlyOnce(s: State, es: seq<Event>, h: Host)
    requires Valid(s.pool) && ConnsOf(s.pool, h) != [] && Unchanged(s, es, h) && NoOverflow(s, es, h)
    requires |Returned(s, es, h)| == |ConnsOf(s.pool, h)|
    ensures multiset(Returned(s, es, h)) == multiset(ConnsOf(s.pool, h))
  {
    SelectionsTakeTurns(s, es, h);
    EachOnce(ConnsOf(s.pool, h), s.pool.counter[h]);
  }

  lemma Congruent(a: int, b: int, n: int)
    requires n > 0 && a >= b
    ensures a % n == b % n <==> (a - b) % n == 0
  {
    var p, q, d := a / n, b / n, (a - b) / n;
    if a % n == b % n {
      assert a - b == (p - q) * n == (p - q) * n + 0;
      Quotient(d, p - q, n, (a - b) % n, 0);
    } else if (a - b) % n == 0 {
      assert a == b + d * n == (q + d) * n + b % n;
      Quotient(p, q + d, n, a % n, b % n);
    }
  }

  /** What happens there, if the counter wraps: the turn goes on to the next connection if
      and only if their number divides 2^64 - 2^32, as 4 does and 7 does not. */
  lemma OverflowExact(n: nat)
    requires n > 0
    ensures Index(Increment(INT_MAX), n) == (Index(INT_MAX, n) + 1) % n <==> (SIZE_RANGE - 0x1_0000_0000) % n == 0
  {
    var top: nat := 0x8000_0000;
    if n == 1 {
      assert (SIZE_RANGE - 0x1_0000_0000) % n == 0;
    } else {
      Rotate(INT_MAX, 1, n);
      SuccessorIndex(INT_MAX, n);
      Congruent(SIZE_RANGE - top, top, n);
      assert (SIZE_RANGE - top) - top == SIZE_RANGE - 0x1_0000_0000;
    }
  }

  /** With seven connections the turn there goes from the second back to the first. */
  lemma OverflowBreaksSeven()
    ensures Index(INT_MAX, 7) == 1 && Index(Increment(INT_MAX), 7) == 0
  {
  }

  lemma SuccessorIndex(c: nat, n: nat)
    requires n > 1
    ensures (c % n + 1) % n == (c + 1) % n
  {
    Rotate(c, 1, n);
    if c % n + 1 < n {
      DivMod(c % n + 1, n, 0, c % n + 1);
    } else {
      DivMod(c % n + 1, n, 1, 0);
    }
  }

  /** `x` as a 32-bit `int`. */
  function Wrapped(x: int): int { (x + 0x8000_0000) % 0x1_0000_0000 - 0x8000_0000 }

  lemma WrappedNext(c: int, k: nat)
    requires INT_MIN <= c <= INT_MAX
    ensures Wrapped(c) == c && Wrapped(Increment(c) + k) == Wrapped(c + 1 + k)
  {
    if c == INT_MAX {
      assert (c + 1 + k) + 0x8000_0000 == (Increment(c) + k) + 0x8000_0000 + 0x1_0000_0000;
    }
  }

  function CounterOr0(p: Pool, h: Host): int { if h in p.counter then p.counter[h] else 0 }

  lemma CounterStep(s: State, e: Event, h: Host)
    requires Valid(s.pool)
    ensures CounterOr0(Next(s, e).pool, h)
            == if e == Get(h) && Selected(s.pool, h).Some? then Increment(CounterOr0(s.pool, h)) else CounterOr0(s.pool, h)
  {
  }

  /** In every run the counter of a destination is the number of its selections so far,
      wrapped to an `int`, whatever was added and removed in between. */
  lemma {:induction false} CounterExact(s: State, es: seq<Event>, h: Host)
    requires Valid(s.pool)
    ensures Valid(Run(s, es).pool)
    ensures CounterOr0(Run(s, es).pool, h) == Wrapped(CounterOr0(s.pool, h) + |Returned(s, es, h)|)
    decreases |es|
  {
    var c := CounterOr0(s.pool, h);
    WrappedNext(c, 0);
    if es != [] {
      NextValid(s, es[0]);
      CounterStep(s, es[0], h);
      CounterExact(Next(s, es[0]), es[1..], h);
      WrappedNext(c, |Returned(Next(s, es[0]), es[1..], h)|);
    }
  }

  // ------------------------------------------------------------ which connections

  /** The step puts connection `x` to `h` into the pool. */
  predicate PutsIn(s: State, e: Event, h: Host, x: Sock) {
    match e
    case Add(sock) => sock == Some(x) && x.hasHost && x.host == h
    case Made(t, made) => made == Some(x) && t < |s.slots| && s.slots[t].Creating? && s.slots[t].host == h
    case _ => false
  }

  /** The step removes an open connection to `h` with the descriptor of `x`. */
  predicate TakesOut(e: Event, h: Host, x: Sock) {
    && e.Remove? && e.sock.Some? && e.sock.value.hasHost && e.sock.value.host == h
    && e.sock.value !in e.closed && x !in e.closed && e.sock.value.fd == x.fd
  }

  /** How often `x` was put in since it was last taken out. */
  function PutSince(s: State, es: seq<Event>, h: Host, x: Sock, before: nat): nat
    decreases |es|
  {
    if es == [] then before
    else
      var now := if TakesOut(es[0], h, x) then 0 else if PutsIn(s, es[0], h, x) then before + 1 else before;
      PutSince(Next(s, es[0]), es[1..], h, x, now)
  }

  lemma PooledStep(s: State, e: Event, h: Host, x: Sock)
    ensures var was, now := multiset(ConnsOf(s.pool, h))[x], multiset(ConnsOf(Next(s, e).pool, h))[x];
            now == if TakesOut(e, h, x) then 0 else if PutsIn(s, e, h, x) then was + 1 else was
  {
    var conns := ConnsOf(s.pool, h);
    if e.Remove? && e.sock.Some? {
      WithoutMeans(conns, e.sock.value, e.closed);
    }
  }

  /** In every run the pool holds a connection for a destination exactly as often as it
      was put in for it since it was last taken out. */
  lemma {:induction false} PooledExact(s: State, es: seq<Event>, h: Host, x: Sock)
    ensures multiset(ConnsOf(Run(s, es).pool, h))[x] == PutSince(s, es, h, x, multiset(ConnsOf(s.pool, h))[x])
    decreases |es|
  {
    if es != [] {
      PooledStep(s, es[0], h, x);
      PooledExact(Next(s, es[0]), es[1..], h, x);
    }
  }

  /** A new connection is the last in turn. */
  lemma PutLast(s: State, e: Event, h: Host, x: Sock)
    requires PutsIn(s, e, h, x)
    ensures ConnsOf(Next(s, e).pool, h) == ConnsOf(s.pool, h) + [x]
  {
  }

  // ------------------------------------------------------------ how many connections

  function LeftOf(slot: Slot, h: Host): nat {
    if slot.Creating? && slot.host == h then slot.left else 0
  }

  /** The connections to `h` still to be made by all threads. */
  function Left(slots: seq<Slot>, h: Host): nat {
    if slots == [] then 0 else LeftOf(slots[0], h) + Left(slots[1..], h)
  }

  lemma {:induction false} LeftUpdate(slots: seq<Slot>, t: nat, x: Slot, h: Host)
    requires t < |slots|
    ensures Left(slots[t := x], h) == Left(slots, h) - LeftOf(slots[t], h) + LeftOf(x, h)
  {
    var after := slots[t := x];
    if t == 0 {
      assert after[1..] == slots[1..];
    } else {
      assert after[0] == slots[0] && after[1..] == slots[1..][t - 1 := x];
      LeftUpdate(slots[1..], t - 1, x, h);
    }
  }

  ghost predicate SlotsWithin(slots: seq<Slot>, most: nat) {
    forall t :: 0 <= t < |slots| && slots[t].Creating? ==> 0 < slots[t].left <= most
  }

  lemma {:induction false} LeftBound(slots: seq<Slot>, h: Host, most: nat)
    requires SlotsWithin(slots, most)
    ensures Left(slots, h) <= |slots| * most
  {
    if slots != [] {
      LeftBound(slots[1..], h, most);
      assert |slots| * most == (|slots| - 1) * most + most;
    }
  }

  /** A free thread leaves room for its own share. */
  lemma LeftBoundFree(slots: seq<Slot>, t: nat, h: Host, most: nat)
    requires SlotsWithin(slots, most) && t < |slots| && slots[t] == Free && most > 0
    ensures Left(slots, h) + most <= |slots| * most
  {
    var full := slots[t := Creating(h, most)];
    LeftUpdate(slots, t, Creating(h, most), h);
    LeftBound(full, h, most);
  }

  ghost predicate Within(s: State, h: Host, most: nat) {
    && SlotsWithin(s.slots, most)
    && |ConnsOf(s.pool, h)| + Left(s.slots, h) <= |s.slots| * most + Added(s, h)
  }

  lemma {:induction false} WithoutShorter(conns: seq<Sock>, s: Sock, closed: set<Sock>)
    ensures |Without(conns, s, closed)| <= |conns|
  {
    if conns != [] {
      WithoutShorter(conns[1..], s, closed);
    }
  }

  lemma CountWithin(s: State, t: nat, g: Host, num: int, h: Host, most: nat)
    requires Within(s, h, most) && num <= most && t < |s.slots| && s.slots[t] == Free && num > |ConnsOf(s.pool, g)|
    ensures Within(Next(s, Count(t, g, num)), h, most)
  {
    LeftUpdate(s.slots, t, Creating(g, num - |ConnsOf(s.pool, g)|), h);
    LeftBoundFree(s.slots, t, h, most);
  }

  lemma MadeWithin(s: State, t: nat, made: Option<Sock>, h: Host, most: nat)
    requires Within(s, h, most) && t < |s.slots| && s.slots[t].Creating?
    ensures Within(Next(s, Made(t, made)), h, most)
  {
    var g, left := s.slots[t].host, s.slots[t].left;
    if made == None {
      LeftUpdate(s.slots, t, Free, h);
    } else {
      LeftUpdate(s.slots, t, if left > 1 then Creating(g, left - 1) else Free, h);
    }
  }

  lemma NextWithin(s: State, e: Event, h: Host, most: nat)
    requires Within(s, h, most) && (e.Count? ==> e.num <= most)
    ensures Within(Next(s, e), h, most) && |Next(s, e).slots| == |s.slots|
  {
    match e
    case Remove(sock, closed) =>
      if sock.Some? && sock.value.host in s.pool.conns {
        WithoutShorter(s.pool.conns[sock.value.host], sock.value, closed);
      }
    case Count(t, g, num) =>
      if t < |s.slots| && s.slots[t] == Free && num > |ConnsOf(s.pool, g)| { CountWithin(s, t, g, num, h, most); }
    case Made(t, made) =>
      if t < |s.slots| && s.slots[t].Creating? { MadeWithin(s, t, made, h, most); }
    case _ =>
  }

  lemma {:induction false} RunWithin(s: State, es: seq<Event>, h: Host, most: nat)
    requires Within(s, h, most) && forall i :: 0 <= i < |es| && es[i].Count? ==> es[i].num <= most
    ensures Within(Run(s, es), h, most) && |Run(s, es).slots| == |s.slots|
    decreases |es|
  {
    if es != [] {
      NextWithin(s, es[0], h, most);
      RunWithin(Next(s, es[0]), es[1..], h, most);
    }
  }

  lemma {:induction false} NothingLeft(threads: nat, h: Host)
    ensures Left(seq(threads, i => Free), h) == 0
  {
    var slots: seq<Slot> := seq(threads, i => Free);
    if threads > 0 {
      assert slots[1..] == seq(threads - 1, i => Free);
      NothingLeft(threads - 1, h);
    }
  }

  /** In every run of `threads` threads, each asking for at most `most` connections at
      a time, a destination has at most `threads * most` of them, plus those added from
      outside. */
  lemma PoolBound(threads: nat, es: seq<Event>, h: Host, most: nat)
    requires forall i :: 0 <= i < |es| && es[i].Count? ==> es[i].num <= most
    ensures var s := Run(Start(threads), es); |ConnsOf(s.pool, h)| <= threads * most + Added(s, h)
  {
    NothingLeft(threads, h);
    RunWithin(Start(threads), es, h, most);
  }

  /** What the code means to keep: a thread that is alone with its destination stops at
      the number it asked for. */
  predicate Elsewhere(e: Event, h: Host) {
    match e
    case Add(sock) => !(sock.Some? && sock.value.hasHost && sock.value.host == h)
    case Count(_, g, _) => g != h
    case _ => true
  }

  ghost predicate Alone(s: State, t: nat, h: Host, num: int) {
    && t < |s.slots| && (forall v :: 0 <= v < |s.slots| && v != t ==> LeftOf(s.slots[v], h) == 0)
    && (forall v :: 0 <= v < |s.slots| && s.slots[v].Creating? ==> s.slots[v].left > 0)
    && |ConnsOf(s.pool, h)| + LeftOf(s.slots[t], h) <= num
  }

  lemma NextAlone(s: State, e: Event, t: nat, h: Host, num: int)
    requires Alone(s, t, h, num) && Elsewhere(e, h)
    ensures Alone(Next(s, e), t, h, num)
  {
    if e.Remove? && e.sock.Some? && e.sock.value.host in s.pool.conns {
      WithoutShorter(s.pool.conns[e.sock.value.host], e.sock.value, e.closed);
    }
  }

  lemma {:induction false} AloneStaysWithin(s: State, es: seq<Event>, t: nat, h: Host, num: int)
    requires Alone(s, t, h, num) && forall i :: 0 <= i < |es| ==> Elsewhere(es[i], h)
    ensures |ConnsOf(Run(s, es).pool, h)| <= num
    decreases |es|
  {
    if es != [] {
      NextAlone(s, es[0], t, h, num);
      AloneStaysWithin(Next(s, es[0]), es[1..], t, h, num);
    }
  }

  // ------------------------------------------------------------ the bound is reached

  lemma {:induction false} RunThen(s: State, es: seq<Event>, e: Event)
    ensures Run(s, es + [e]) == Next(Run(s, es), e)
    decreases |es|
  {
    var all := es + [e];
    if es == [] {
      assert all[1..] == [];
    } else {
      assert all[0] == es[0] && all[1..] == es[1..] + [e];
      RunThen(Next(s, es[0]), es[1..], e);
    }
  }

  /** A run in which thread after thread counts before any has appended. */
  lemma {:induction false} AllCount(threads: nat, k: nat, h: Host, num: nat) returns (es: seq<Event>)
    requires k <= threads && num > 0
    ensures forall i :: 0 <= i < |es| ==> !es[i].Add? && (es[i].Count? ==> es[i].num == num)
    ensures var s := Run(Start(threads), es);
            && s.pool == Pool(map[], map[]) && |s.slots| == threads
            && forall t :: 0 <= t < threads ==> s.slots[t] == if t < k then Creating(h, num) else Free
    decreases k
  {
    if k == 0 {
      es := [];
    } else {
      var before := AllCount(threads, k - 1, h, num);
      es := before + [Count(k - 1, h, num)];
      RunThen(Start(threads), before, Count(k - 1, h, num));
    }
  }

  /** A thread makes all the connections it set out to make. */
  lemma {:induction false} MakeAll(threads: nat, before: seq<Event>, t: nat, h: Host, left: nat, sock: Sock) returns (es: seq<Event>)
    requires forall i :: 0 <= i < |before| ==> !before[i].Add?
    requires var s := Run(Start(threads), before); t < |s.slots| && s.slots[t] == Creating(h, left) && left > 0
    ensures forall i :: 0 <= i < |es| ==> !es[i].Add? && (es[i].Count? ==> es[i] in before)
    ensures var s, r := Run(Start(threads), before), Run(Start(threads), es);
            r.slots == s.slots[t := Free] && |ConnsOf(r.pool, h)| == |ConnsOf(s.pool, h)| + left
    decreases left
  {
    var one := before + [Made(t, Some(sock))];
    RunThen(Start(threads), before, Made(t, Some(sock)));
    if left == 1 {
      es := one;
    } else {
      es := MakeAll(threads, one, t, h, left - 1, sock);
    }
  }

  lemma {:induction false} AllMake(threads: nat, k: nat, h: Host, num: nat, sock: Sock) returns (es: seq<Event>)
    requires k <= threads && num > 0
    ensures forall i :: 0 <= i < |es| ==> !es[i].Add? && (es[i].Count? ==> es[i].num == num)
    ensures var s := Run(Start(threads), es);
            && |ConnsOf(s.pool, h)| == k * num && |s.slots| == threads
            && forall t :: k <= t < threads ==> s.slots[t] == Creating(h, num)
    decreases k
  {
    if k == 0 {
      es := AllCount(threads, threads, h, num);
    } else {
      var before := AllMake(threads, k - 1, h, num, sock);
      es := MakeAll(threads, before, k - 1, h, num, sock);
      assert k * num == (k - 1) * num + num;
    }
  }

  /** The bound is the best possible: each of the threads counts before the others have
      appended, and none stops at the number asked for. */
  lemma BoundIsReached(threads: nat, h: Host, num: nat, sock: Sock) returns (es: seq<Event>)
    requires num > 0
    ensures forall i :: 0 <= i < |es| ==> !es[i].Add? && (es[i].Count? ==> es[i].num == num)
    ensures |ConnsOf(Run(Start(threads), es).pool, h)| == threads * num
  {
    es := AllMake(threads, threads, h, num, sock);
  }

  // ------------------------------------------------------------ the code

  predicate AllMade(made: seq<Option<Sock>>) {
    forall i :: 0 <= i < |made| ==> made[i].Some?
  }

  function Socks(made: seq<Option<Sock>>): seq<Sock>
    requires AllMade(made)
  {
    seq(|made|, i requires 0 <= i < |made| => made[i].value)
  }

  /** Connections appended one after the other. */
  function PutAll(p: Pool, h: Host, ss: seq<Sock>): Pool {
    if ss == [] then p else Put(PutAll(p, h, ss[..|ss| - 1]), h, ss[|ss| - 1])
  }

  lemma {:induction false} PutAllMeans(p: Pool, h: Host, ss: seq<Sock>, g: Host)
    ensures ConnsOf(PutAll(p, h, ss), g) == if g == h then ConnsOf(p, h) + ss else ConnsOf(p, g)
    ensures Valid(p) ==> Valid(PutAll(p, h, ss))
    decreases |ss|
  {
    if ss == [] {
      assert ConnsOf(p, h) + ss == ConnsOf(p, h);
    } else {
      var n := |ss| - 1;
      PutAllMeans(p, h, ss[..n], g);
      assert ss == ss[..n] + [ss[n]];
    }
  }

  class TcpClientPool {
    var pool: map<Host, seq<Sock>>
    var counter: map<Host, int>

    function Now(): Pool
      reads this
    {
      Pool(pool, counter)
    }

    constructor ()
      ensures Now() == Start(0).pool && Valid(Now())
    {
      pool, counter := map[], map[];
    }

    /** `GetTcpSockByDestHost`: the next one in turn. */
    method GetTcpSock(h: Host) returns (r: Option<Sock>)
      requires Valid(Now())
      modifies this
      ensures Valid(Now()) && r == Selected(old(Now()), h) && Now() == Turned(old(Now()), h)
    {
      if h in pool && |pool[h]| > 0 {
        var all_conn := pool[h];
        var c := counter[h];
        counter := counter[h := Increment(c)];
        r := Some(all_conn[Index(c, |all_conn|)]);
      } else {
        r := None;
      }
    }

    /** The pool update that `AddTcpSock` and `CreateTcpSock` share. */
    method PutTcpSock(h: Host, s: Sock)
      modifies this
      ensures Now() == Put(old(Now()), h, s)
    {
      if h in pool {
        pool := pool[h := pool[h] + [s]];
      } else {
        pool := pool[h := [s]];
        counter := counter[h := 0];
      }
    }

    method AddTcpSock(s: Option<Sock>) returns (ok: bool)
      modifies this
      ensures ok <==> s.Some? && s.value.hasHost
      ensures Now() == if ok then Put(old(Now()), s.value.host, s.value) else old(Now())
    {
      ok := s.Some? && s.value.hasHost;
      if ok {
        PutTcpSock(s.value.host, s.value);
      }
    }

    /** `RemoveTcpSock`: the erase loop. */
    method RemoveTcpSock(s: Option<Sock>, closed: set<Sock>)
      modifies this
      ensures Now() == Removed(old(Now()), s, closed)
    {
      if s.Some? && s.value.hasHost && s.value.host in pool {
        var conns := pool[s.value.host];
        var i := 0;
        ghost var all, left := Without(conns, s.value, closed), conns;
        while i < |conns|
          invariant 0 <= i <= |conns| && left == conns[i..]
          invariant conns[..i] + Without(left, s.value, closed) == all
          decreases |conns| - i
        {
          assert left[0] == conns[i];
          if Same(s.value, conns[i], closed) {
            assert conns[..i] + conns[i + 1..] == conns[..i] + left[1..];
            conns := conns[..i] + conns[i + 1..];
          } else {
            assert conns[..i + 1] == conns[..i] + [conns[i]];
            i := i + 1;
          }
          left := left[1..];
        }
        assert conns[..i] == conns && left == [] && conns + [] == conns;
        pool := pool[s.value.host := conns];
      }
    }

    /** The first block of `CreateTcpSock`. */
    method CountNeeded(h: Host, num: int) returns (realneed: int)
      ensures realneed == num - |ConnsOf(Now(), h)|
    {
      realneed := num;
      if h in pool {
        realneed := realneed - |pool[h]|;
      }
    }

    /** `CreateTcpSock`, run without interruption; `made` are the outcomes of
        connecting, registering with a loop and identifying. */
    method CreateTcpSock(h: Host, num: int, made: seq<Option<Sock>>) returns (ok: bool)
      requires |made| >= num
      modifies this
      ensures var k := |ConnsOf(Now(), h)| - |ConnsOf(old(Now()), h)|;
              && 0 <= k <= |made| && AllMade(made[..k]) && Now() == PutAll(old(Now()), h, Socks(made[..k]))
              && (k > 0 ==> |ConnsOf(Now(), h)| <= num)
              && (if ok then |ConnsOf(Now(), h)| >= num else |ConnsOf(Now(), h)| < num && k < |made| && made[k] == None)
    {
      var realneed := CountNeeded(h, num);
      var k := 0;
      realneed := realneed - 1;
      PutAllMeans(Now(), h, [], h);
      while realneed >= 0
        modifies this
        invariant 0 <= k <= |made| && AllMade(made[..k]) && Now() == PutAll(old(Now()), h, Socks(made[..k]))
        invariant |ConnsOf(Now(), h)| == |ConnsOf(old(Now()), h)| + k && realneed == num - 1 - |ConnsOf(Now(), h)|
        invariant k > 0 ==> |ConnsOf(Now(), h)| <= num
        decreases realneed
      {
        if made[k] == None {
          return false;
        }
        OneMore(made, k);
        PutAllMeans(old(Now()), h, Socks(made[..k + 1]), h);
        PutTcpSock(h, made[k].value);
        k := k + 1;
        realneed := realneed - 1;
      }
      ok := true;
    }
  }

  lemma OneMore(made: seq<Option<Sock>>, k: nat)
    requires k < |made| && AllMade(made[..k]) && made[k].Some?
    ensures AllMade(made[..k + 1])
    ensures var all := Socks(made[..k + 1]); |all| == k + 1 && all[..k] == Socks(made[..k]) && all[k] == made[k].value
  {
    assert made[..k + 1] == made[..k] + [made[k]];
  }
}
