/** The growing, compacting and shrinking byte buffer under every socket
    (Core/FastBuffer.h, Core/FastBuffer.cpp).

    `Buf` is the buffer as a value and the functions on it follow the code
    branch by branch; the class below is the code itself, proved equal to them.
    The lemmas at the end speak of whole runs of operations. */
module FastBuffers {
  import opened Bytes

  const DEFAULT_SIZE: nat := 128
  const GROW_SIZE: nat := 2048
  const SHRINK_SIZE: nat := 131072
  const DOWN_SIZE: nat := 8192
  const MAX_SIZE: nat := 262144

  datatype Buf = Buf(cells: seq<Byte>, readstart: int, writestart: int, halfcounter: int)

  ghost predicate Valid(b: Buf) {
    0 <= b.readstart <= b.writestart <= |b.cells| && |b.cells| >= DEFAULT_SIZE
  }

  function Size(b: Buf): int { b.writestart - b.readstart }

  /** The bytes that have been written and not yet consumed. */
  function Live(b: Buf): seq<Byte>
    requires Valid(b)
  {
    b.cells[b.readstart..b.writestart]
  }

  function Init(): (b: Buf)
    ensures Valid(b) && Live(b) == []
  {
    Buf(Zeros(DEFAULT_SIZE), 0, 0, 0)
  }

  function Resized(cells: seq<Byte>, n: nat): (r: seq<Byte>)
    ensures |r| == n
  {
    if n <= |cells| then cells[..n] else cells + Zeros(n - |cells|)
  }

  /** The live bytes moved to the front; what was there behind them stays. */
  function Compacted(b: Buf): Buf
    requires Valid(b)
  {
    Buf(Live(b) + b.cells[Size(b)..], 0, Size(b), b.halfcounter)
  }

  function Ensured(b: Buf, n: nat): Buf
    requires Valid(b)
  {
    if |b.cells| >= b.writestart + n then b
    else if |b.cells| > MAX_SIZE then
      var c := Compacted(b);
      if |c.cells| < n + Size(c) then c.(cells := Resized(c.cells, Size(c) + n)) else c
    else b.(cells := Resized(b.cells, b.writestart * 2 + n + GROW_SIZE))
  }

  predicate MuchFree(b: Buf, n: nat) {
    |b.cells| - Size(b) - n > |b.cells| / 8 * 7
  }

  function Shrunk(b: Buf, n: nat): Buf
    requires Valid(b)
  {
    if |b.cells| <= SHRINK_SIZE then b
    else if !MuchFree(b, n) then b.(halfcounter := 0)
    else if b.halfcounter <= 100 then b.(halfcounter := b.halfcounter + 1)
    else
      var c := Compacted(b);
      Buf(Resized(c.cells, |c.cells| - DOWN_SIZE), 0, c.writestart, 0)
  }

  /** Copy `data` to the write position of a buffer that has room for it. */
  function Stored(b: Buf, data: seq<Byte>): Buf
    requires Valid(b) && b.writestart + |data| <= |b.cells|
  {
    b.(cells := b.cells[..b.writestart] + data + b.cells[b.writestart + |data|..],
       writestart := b.writestart + |data|)
  }

  function Popped(b: Buf, n: nat): Buf {
    if b.writestart <= b.readstart + n then b.(readstart := 0, writestart := 0)
    else b.(readstart := b.readstart + n)
  }

  lemma EnsuredRefines(b: Buf, n: nat)
    requires Valid(b)
    ensures var e := Ensured(b, n);
            Valid(e) && Live(e) == Live(b) && e.writestart + n <= |e.cells| && |b.cells| <= |e.cells|
  {
    var e := Ensured(b, n);
    assert Live(e) == Live(b);
  }

  /** A shrink never cuts live bytes, and the push that triggered it still fits
      without growing again. */
  lemma ShrinkKeepsRoom(b: Buf, n: nat)
    requires Valid(b)
    ensures var s := Shrunk(b, n);
            && Valid(s) && Live(s) == Live(b)
            && (|s.cells| < |b.cells| ==> Ensured(s, n) == s)
  {
    var s := Shrunk(b, n);
    assert Live(s) == Live(b);
  }

  function Pushed(b: Buf, data: seq<Byte>): (p: Buf)
    requires Valid(b)
    ensures Valid(p) && Live(p) == Live(b) + data
  {
    if data == [] then b
    else
      var s := Shrunk(b, |data|);
      ShrinkKeepsRoom(b, |data|);
      EnsuredRefines(s, |data|);
      var p := Stored(Ensured(s, |data|), data);
      assert Live(p) == Live(b) + data;
      p
  }

  /** One use of the buffer. `Direct` is the zero-copy path: make room for
      `room` bytes, let the kernel write `data` there, account for it. */
  datatype Op =
    | Push(data: seq<Byte>)
    | Direct(room: nat, data: seq<Byte>)
    | Pop(n: nat)
    | Clear

  /** The bytes of room an operation asks for. */
  function Request(op: Op): nat {
    match op
    case Push(data) => |data|
    case Direct(room, _) => room
    case _ => 0
  }

  /** What the code asserts of its callers: no more is written than was asked
      for, no more is consumed than is there. */
  predicate Allowed(live: nat, op: Op) {
    match op
    case Direct(room, data) => |data| <= room
    case Pop(n) => n <= live
    case _ => true
  }

  function Step(b: Buf, op: Op): (r: Buf)
    requires Valid(b) && Allowed(Size(b), op)
    ensures Valid(r)
  {
    match op
    case Push(data) => Pushed(b, data)
    case Direct(room, data) => EnsuredRefines(b, room); Stored(Ensured(b, room), data)
    case Pop(n) => Popped(b, n)
    case Clear => b.(readstart := 0, writestart := 0)
  }

  /** The plain byte queue that the buffer stands for. */
  function QueueStep(q: seq<Byte>, op: Op): seq<Byte>
    requires Allowed(|q|, op)
  {
    match op
    case Push(data) => q + data
    case Direct(_, data) => q + data
    case Pop(n) => q[n..]
    case Clear => []
  }

  lemma StepRefines(b: Buf, op: Op)
    requires Valid(b) && Allowed(Size(b), op)
    ensures Live(Step(b, op)) == QueueStep(Live(b), op)
  {
    match op
    case Direct(room, data) =>
      EnsuredRefines(b, room);
      var s := Step(b, op);
      assert Live(s) == Live(Ensured(b, room)) + data;
    case _ =>
  }

  predicate RunAllowed(q: seq<Byte>, ops: seq<Op>)
    decreases |ops|
  {
    ops == [] || (Allowed(|q|, ops[0]) && RunAllowed(QueueStep(q, ops[0]), ops[1..]))
  }

  function QueueRun(q: seq<Byte>, ops: seq<Op>): seq<Byte>
    requires RunAllowed(q, ops)
    decreases |ops|
  {
    if ops == [] then q else QueueRun(QueueStep(q, ops[0]), ops[1..])
  }

  function Run(b: Buf, ops: seq<Op>): (r: Buf)
    requires Valid(b) && RunAllowed(Live(b), ops)
    ensures Valid(r)
    decreases |ops|
  {
    if ops == [] then b else StepRefines(b, ops[0]); Run(Step(b, ops[0]), ops[1..])
  }

  /** Over any run of operations the buffer is a byte queue: the indices stay in
      order and the live bytes are exactly the queue's, across every growth,
      compaction and shrink. */
  lemma {:induction false} RunRefinesQueue(b: Buf, ops: seq<Op>)
    requires Valid(b) && RunAllowed(Live(b), ops)
    ensures Valid(Run(b, ops)) && Live(Run(b, ops)) == QueueRun(Live(b), ops)
    decreases |ops|
  {
    if ops != [] {
      StepRefines(b, ops[0]);
      RunRefinesQueue(Step(b, ops[0]), ops[1..]);
    }
  }

  function Max(a: int, b: int): int { if a < b then b else a }

  /** The largest single request of a run. */
  function MaxRequest(ops: seq<Op>): nat {
    if ops == [] then 0 else Max(Request(ops[0]), MaxRequest(ops[1..]))
  }

  /** The largest live size plus request that a run ever meets. */
  function MaxDemand(q: seq<Byte>, ops: seq<Op>): nat
    requires RunAllowed(q, ops)
    decreases |ops|
  {
    if ops == [] then 0
    else Max(|q| + Request(ops[0]), MaxDemand(QueueStep(q, ops[0]), ops[1..]))
  }

  const SLACK: nat := 2 * MAX_SIZE + GROW_SIZE

  lemma EnsuredCapacity(b: Buf, n: nat)
    requires Valid(b)
    ensures |Ensured(b, n).cells| <= Max(|b.cells|, Max(SLACK + n, Size(b) + n))
  {
  }

  lemma ShrunkCapacity(b: Buf, n: nat)
    requires Valid(b)
    ensures |Shrunk(b, n).cells| <= |b.cells| && Size(Shrunk(b, n)) == Size(b)
  {
  }

  lemma StepCapacity(b: Buf, op: Op)
    requires Valid(b) && Allowed(Size(b), op)
    ensures |Step(b, op).cells| <= Max(|b.cells|, Max(SLACK + Request(op), Size(b) + Request(op)))
  {
    match op
    case Push(data) =>
      if data != [] {
        var s := Shrunk(b, |data|);
        ShrinkKeepsRoom(b, |data|);
        ShrunkCapacity(b, |data|);
        EnsuredRefines(s, |data|);
        EnsuredCapacity(s, |data|);
        assert |Stored(Ensured(s, |data|), data).cells| == |Ensured(s, |data|).cells|;
      }
    case Direct(room, data) =>
      EnsuredRefines(b, room);
      EnsuredCapacity(b, room);
    case _ =>
  }

  lemma StepWithin(b: Buf, op: Op, cap: nat)
    requires Valid(b) && Allowed(Size(b), op)
    requires |b.cells| <= cap && SLACK + Request(op) <= cap && |Live(b)| + Request(op) <= cap
    ensures |Step(b, op).cells| <= cap
  {
    StepCapacity(b, op);
  }

  /** The capacity of a buffer never exceeds 526336 bytes plus the largest single
      request, or the largest amount of data it was ever asked to hold: any
      bound on these bounds it over the whole run. */
  lemma {:induction false} RunCapacity(b: Buf, ops: seq<Op>, cap: nat)
    requires Valid(b) && RunAllowed(Live(b), ops)
    requires |b.cells| <= cap && SLACK + MaxRequest(ops) <= cap && MaxDemand(Live(b), ops) <= cap
    ensures |Run(b, ops).cells| <= cap
    decreases |ops|
  {
    if ops != [] {
      var c, rest := Step(b, ops[0]), ops[1..];
      StepRefines(b, ops[0]);
      StepWithin(b, ops[0], cap);
      RunCapacity(c, rest, cap);
    }
  }

  /** Both results for a buffer as the constructor leaves it. */
  lemma FreshRun(ops: seq<Op>)
    requires RunAllowed([], ops)
    ensures Live(Run(Init(), ops)) == QueueRun([], ops)
    ensures |Run(Init(), ops).cells| <= Max(526336 + MaxRequest(ops), MaxDemand([], ops))
  {
    RunRefinesQueue(Init(), ops);
    RunCapacity(Init(), ops, Max(526336 + MaxRequest(ops), MaxDemand([], ops)));
  }

  // ------------------------------------------------------------ exactly when it grows and shrinks

  /** A push into a large buffer of which less than an eighth would be used. */
  predicate IdlePush(b: Buf, op: Op) {
    && op.Push? && op.data != [] && |b.cells| > 131072
    && |b.cells| - (b.writestart - b.readstart) - |op.data| > |b.cells| / 8 * 7
  }

  predicate BusyPush(b: Buf, op: Op) {
    op.Push? && op.data != [] && |b.cells| > 131072 && !IdlePush(b, op)
  }

  predicate Shrinks(b: Buf, op: Op) { IdlePush(b, op) && b.halfcounter > 100 }

  /** What room for `n` bytes behind the write position does to the capacity. */
  function Grown(cap: nat, written: nat, live: nat, n: nat): nat {
    if written + n <= cap then cap
    else if cap > 262144 then Max(cap, live + n)
    else 2 * written + n + 2048
  }

  lemma EnsuredGrows(b: Buf, n: nat)
    requires Valid(b)
    ensures |Ensured(b, n).cells| == Grown(|b.cells|, b.writestart, Size(b), n)
  {
  }

  lemma ShrunkExact(b: Buf, data: seq<Byte>)
    requires Valid(b) && data != []
    ensures var s, op := Shrunk(b, |data|), Push(data);
            && |s.cells| == (if Shrinks(b, op) then |b.cells| - 8192 else |b.cells|)
            && s.halfcounter == (if Shrinks(b, op) || BusyPush(b, op) then 0
                                 else if IdlePush(b, op) then b.halfcounter + 1 else b.halfcounter)
            && (!Shrinks(b, op) ==> s.writestart == b.writestart && Size(s) == Size(b))
  {
  }

  lemma PushExact(b: Buf, data: seq<Byte>)
    requires Valid(b) && data != []
    ensures var r, op := Pushed(b, data), Push(data);
            && |r.cells| == (if Shrinks(b, op) then |b.cells| - 8192
                             else Grown(|b.cells|, b.writestart, Size(b), |data|))
            && r.halfcounter == (if Shrinks(b, op) || BusyPush(b, op) then 0
                                 else if IdlePush(b, op) then b.halfcounter + 1 else b.halfcounter)
  {
    var s := Shrunk(b, |data|);
    ShrunkExact(b, data);
    ShrinkKeepsRoom(b, |data|);
    EnsuredRefines(s, |data|);
    EnsuredGrows(s, |data|);
  }

  /** The capacity and the idle counter after every operation: 8192 bytes are given
      back exactly by a push that finds the buffer above 131072 bytes, seven eighths
      free, and so found it the 101 times before; otherwise the capacity stays or
      grows by the code's rule. */
  lemma StepExact(b: Buf, op: Op)
    requires Valid(b) && Allowed(Size(b), op)
    ensures |Step(b, op).cells| == (if Shrinks(b, op) then |b.cells| - 8192
                                    else Grown(|b.cells|, b.writestart, Size(b), Request(op)))
    ensures Step(b, op).halfcounter == (if Shrinks(b, op) || BusyPush(b, op) then 0
                                        else if IdlePush(b, op) then b.halfcounter + 1 else b.halfcounter)
  {
    match op
    case Push(data) => if data != [] { PushExact(b, data); }
    case Direct(room, data) =>
      EnsuredRefines(b, room);
      EnsuredGrows(b, room);
    case _ =>
  }

  /** The idle pushes of a run. */
  function IdlePushes(b: Buf, ops: seq<Op>): nat
    requires Valid(b) && RunAllowed(Live(b), ops)
    decreases |ops|
  {
    if ops == [] then 0
    else
      StepRefines(b, ops[0]);
      (if IdlePush(b, ops[0]) then 1 else 0) + IdlePushes(Step(b, ops[0]), ops[1..])
  }

  /** No push of the run finds a large buffer in use. */
  predicate NoBusyPush(b: Buf, ops: seq<Op>)
    requires Valid(b) && RunAllowed(Live(b), ops)
    decreases |ops|
  {
    ops == [] ||
    (!BusyPush(b, ops[0]) && (StepRefines(b, ops[0]); NoBusyPush(Step(b, ops[0]), ops[1..])))
  }

  /** Over whole runs: as long as no push finds a large buffer in use, nothing is given
      back up to the 101st idle push, and the counter counts them. */
  lemma {:induction false} IdleRun(b: Buf, ops: seq<Op>)
    requires Valid(b) && RunAllowed(Live(b), ops) && NoBusyPush(b, ops)
    requires b.halfcounter + IdlePushes(b, ops) <= 101
    ensures Run(b, ops).halfcounter == b.halfcounter + IdlePushes(b, ops)
    ensures |b.cells| <= |Run(b, ops).cells|
    decreases |ops|
  {
    if ops != [] {
      StepExact(b, ops[0]);
      StepRefines(b, ops[0]);
      IdleRun(Step(b, ops[0]), ops[1..]);
    }
  }

  /** ... and the idle push after that gives 8192 bytes back. */
  lemma IdleRunShrinks(b: Buf, ops: seq<Op>, op: Op)
    requires Valid(b) && RunAllowed(Live(b), ops) && NoBusyPush(b, ops)
    requires b.halfcounter + IdlePushes(b, ops) == 101 && IdlePush(Run(b, ops), op)
    ensures |Step(Run(b, ops), op).cells| == |Run(b, ops).cells| - 8192 && Step(Run(b, ops), op).halfcounter == 0
  {
    IdleRun(b, ops);
    StepExact(Run(b, ops), op);
  }

  /** In every run the counter stays within 0 and 101. */
  lemma {:induction false} CounterBound(b: Buf, ops: seq<Op>)
    requires Valid(b) && RunAllowed(Live(b), ops) && 0 <= b.halfcounter <= 101
    ensures 0 <= Run(b, ops).halfcounter <= 101
    decreases |ops|
  {
    if ops != [] {
      StepExact(b, ops[0]);
      StepRefines(b, ops[0]);
      CounterBound(Step(b, ops[0]), ops[1..]);
    }
  }

  /** Core/FastBuffer.h: a vector of bytes, two indices and the idle counter. */
  class FastBuffer {
    var inner: array<Byte>
    var readstart: int
    var writestart: int
    var halfcounter: int

    ghost function State(): Buf
      reads this, inner
    {
      Buf(inner[..], readstart, writestart, halfcounter)
    }

    ghost predicate Ok()
      reads this, inner
    {
      Valid(State())
    }

    ghost function Contents(): seq<Byte>
      requires Ok()
      reads this, inner
    {
      Live(State())
    }

    constructor ()
      ensures Ok() && fresh(inner) && State() == Init()
    {
      inner := new Byte[DEFAULT_SIZE](_ => 0);
      readstart, writestart, halfcounter := 0, 0, 0;
      new;
      assert inner[..] == Zeros(DEFAULT_SIZE);
    }

    /** `data()`, as far as the caller looks: the first `n` live bytes. */
    method Front(n: nat) returns (data: seq<Byte>)
      requires Ok() && n <= writestart - readstart
      ensures data == Contents()[..n]
    {
      data := inner[readstart..readstart + n];
      assert forall i :: 0 <= i < n ==> data[i] == inner[..][readstart..writestart][i];
    }

    /** Give the vector `n` cells, keeping a common prefix. */
    method Resize(n: nat)
      modifies this`inner
      ensures fresh(inner)
      ensures inner[..] == Resized(old(inner[..]), n)
    {
      var bigger := new Byte[n](_ => 0);
      var smaller := inner;
      var keep := if n <= smaller.Length then n else smaller.Length;
      var i := 0;
      while i < keep
        modifies bigger
        invariant 0 <= i <= keep
        invariant bigger[..i] == smaller[..i]
        invariant forall j :: i <= j < n ==> bigger[j] == 0
      {
        bigger[i] := smaller[i];
        i := i + 1;
      }
      inner := bigger;
      assert inner[..] == Resized(old(inner[..]), n);
    }

    /** Copy the live bytes to the front, cell by cell from the left. */
    method Compact()
      requires Ok()
      modifies this`readstart, this`writestart, inner
      ensures State() == Compacted(old(State()))
    {
      ghost var was := inner[..];
      var n := writestart - readstart;
      var i := 0;
      while i < n
        modifies inner
        invariant 0 <= i <= n
        invariant forall j :: 0 <= j < i ==> inner[j] == was[readstart + j]
        invariant forall j :: i <= j < inner.Length ==> inner[j] == was[j]
      {
        inner[i] := inner[readstart + i];
        i := i + 1;
      }
      ghost var goal := was[readstart..writestart] + was[n..];
      assert forall j :: 0 <= j < inner.Length ==> inner[j] == goal[j];
      assert inner[..] == goal;
      writestart := n;
      readstart := 0;
    }

    method EnsureWritable(n: nat)
      requires Ok()
      modifies this`inner, this`readstart, this`writestart, inner
      ensures Ok() && (inner == old(inner) || fresh(inner))
      ensures State() == Ensured(old(State()), n)
      ensures writestart + n <= inner.Length && Contents() == old(Contents())
    {
      EnsuredRefines(State(), n);
      if inner.Length < writestart + n {
        if inner.Length > MAX_SIZE {
          Compact();
          if inner.Length < n + (writestart - readstart) {
            Resize((writestart - readstart) + n);
          }
        } else {
          Resize(writestart * 2 + n + GROW_SIZE);
        }
      }
    }

    method Store(data: seq<Byte>)
      requires Ok() && writestart + |data| <= inner.Length
      modifies this`writestart, inner
      ensures State() == Stored(old(State()), data)
    {
      ghost var was := inner[..];
      var i := 0;
      while i < |data|
        modifies inner
        invariant 0 <= i <= |data|
        invariant forall j :: 0 <= j < i ==> inner[writestart + j] == data[j]
        invariant forall j :: 0 <= j < inner.Length && !(writestart <= j < writestart + i) ==> inner[j] == was[j]
      {
        inner[writestart + i] := data[i];
        i := i + 1;
      }
      assert inner[..] == was[..writestart] + data + was[writestart + |data|..];
      writestart := writestart + |data|;
    }

    /** Give back space that has been idle over a hundred pushes. */
    method AutoShrink(n: nat)
      requires Ok()
      modifies this, inner
      ensures Ok() && (inner == old(inner) || fresh(inner))
      ensures State() == Shrunk(old(State()), n)
      ensures Contents() == old(Contents())
    {
      ShrinkKeepsRoom(State(), n);
      if inner.Length > SHRINK_SIZE {
        if inner.Length - (writestart - readstart) - n > inner.Length / 8 * 7 {
          var counted := halfcounter;
          halfcounter := halfcounter + 1;
          if counted > 100 {
            halfcounter := 0;
            Compact();
            Resize(inner.Length - DOWN_SIZE);
          }
        } else {
          halfcounter := 0;
        }
      }
    }

    method PushBack(data: seq<Byte>)
      requires Ok()
      modifies this, inner
      ensures Ok() && (inner == old(inner) || fresh(inner))
      ensures State() == Pushed(old(State()), data)
      ensures Contents() == old(Contents()) + data
    {
      if data == [] {
        return;
      }
      AutoShrink(|data|);
      EnsureWritable(|data|);
      Store(data);
    }

    /** The kernel writes `data` at the write position (`read` into
        `writablebegin()`), then `push_back_withoutdata` accounts for it. */
    method ReadInto(room: nat, data: seq<Byte>)
      requires Ok() && |data| <= room
      modifies this, inner
      ensures Ok() && (inner == old(inner) || fresh(inner))
      ensures State() == Step(old(State()), Direct(room, data))
      ensures Contents() == old(Contents()) + data
    {
      StepRefines(State(), Direct(room, data));
      EnsureWritable(room);
      Store(data);
    }

    method PopFront(n: nat)
      requires Ok() && n <= writestart - readstart
      modifies this`readstart, this`writestart
      ensures Ok() && State() == Popped(old(State()), n)
      ensures Contents() == old(Contents())[n..]
    {
      readstart := readstart + n;
      if writestart <= readstart {
        readstart, writestart := 0, 0;
      }
    }

    method Clear()
      requires Ok()
      modifies this`readstart, this`writestart
      ensures Ok() && State() == Step(old(State()), Op.Clear)
      ensures Contents() == []
    {
      readstart, writestart := 0, 0;
    }
  }
}
