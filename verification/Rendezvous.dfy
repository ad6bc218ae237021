/** The rendezvous between a synchronous `SendMsg` and the bus thread
    (Core/msgbus_interface.cpp). The caller leaves a fresh record under its thread
    id, queues a task and waits; the bus thread runs the task, looks the record up
    by the thread that queued the task, and fills it in. Each locked block is one
    step. Calls are numbered; a call's record and its task carry its number. */
module Rendezvous {

  /** Where a thread is in its call. */
  datatype Phase = Idle | Created(call: nat) | Waiting(call: nat) | Leaving

  /** Where the bus thread is: `Ran` has a result, `Holds` also a record for it. */
  datatype Place<V> = Free | Ran(task: nat, value: V) | Holds(task: nat, value: V, record: nat)

  /** A result and the task it came from. */
  datatype Result<V> = Result(value: V, task: nat)

  datatype Return<V> = Got(result: Result<V>) | TimedOut

  /** `threads[c]` is the thread of call `c`; `results` logs what each task gave. */
  datatype State<V> = State(
    threads: seq<nat>, phases: map<nat, Phase>, ready: map<nat, nat>, queue: seq<nat>, bus: Place<V>,
    results: map<nat, V>, records: map<nat, Result<V>>, returned: map<nat, Return<V>>)

  function Initial<V>(): State<V> {
    State([], map[], map[], [], Free, map[], map[], map[])
  }

  datatype Event<V> =
    | Begin(thread: nat)      // a new record under the caller's thread id
    | Push(thread: nat)       // the task enters the queue
    | Execute(value: V)       // the bus thread runs the next task
    | Find                    // and looks for the caller's record
    | Fill                    // and completes it
    | Take(thread: nat)       // the caller sees its record completed
    | Expire(thread: nat)     // the caller's wait times out
    | Erase(thread: nat)      // the caller removes its record and returns

  function PhaseOf<V>(s: State<V>, t: nat): Phase {
    if t in s.phases then s.phases[t] else Idle
  }

  function ThreadOf<V>(s: State<V>, c: nat): int {
    if c < |s.threads| then s.threads[c] else -1
  }

  function Next<V>(s: State<V>, e: Event<V>): State<V> {
    match e
    case Begin(t) =>
      if PhaseOf(s, t) != Idle then s
      else s.(threads := s.threads + [t], phases := s.phases[t := Created(|s.threads|)], ready := s.ready[t := |s.threads|])
    case Push(t) =>
      if !PhaseOf(s, t).Created? then s
      else s.(queue := s.queue + [PhaseOf(s, t).call], phases := s.phases[t := Waiting(PhaseOf(s, t).call)])
    case Execute(v) =>
      if s.bus != Free || s.queue == [] then s
      else s.(bus := Ran(s.queue[0], v), queue := s.queue[1..], results := s.results[s.queue[0] := v])
    case Find =>
      if !s.bus.Ran? then s
      else
        var t := ThreadOf(s, s.bus.task);
        s.(bus := if t >= 0 && t in s.ready then Holds(s.bus.task, s.bus.value, s.ready[t]) else Free)
    case Fill =>
      if !s.bus.Holds? then s
      else s.(bus := Free, records := s.records[s.bus.record := Result(s.bus.value, s.bus.task)])
    case Take(t) =>
      if !PhaseOf(s, t).Waiting? || PhaseOf(s, t).call !in s.records then s
      else Left(s, t, Got(s.records[PhaseOf(s, t).call]))
    case Expire(t) =>
      if !PhaseOf(s, t).Waiting? then s else Left(s, t, TimedOut)
    case Erase(t) =>
      if PhaseOf(s, t) != Leaving then s
      else s.(phases := s.phases[t := Idle], ready := s.ready - {t})
  }

  function Left<V>(s: State<V>, t: nat, r: Return<V>): State<V>
    requires PhaseOf(s, t).Waiting?
  {
    s.(returned := s.returned[PhaseOf(s, t).call := r], phases := s.phases[t := Leaving])
  }

  function Run<V>(s: State<V>, es: seq<Event<V>>): State<V>
    decreases |es|
  {
    if es == [] then s else Run(Next(s, es[0]), es[1..])
  }

  // ------------------------------------------------------------ every run

  /** A thread's call is its own, and its task is not queued before it is pushed. */
  ghost predicate PhaseFine<V>(s: State<V>, t: nat) {
    var p := PhaseOf(s, t);
    && (p.Created? || p.Waiting? ==> ThreadOf(s, p.call) == t)
    && (p.Created? ==> p.call !in s.queue && p.call !in s.results)
  }

  ghost predicate PhasesFine<V>(s: State<V>) {
    forall t: nat :: PhaseFine(s, t)
  }

  /** Tasks run once, and all calls have begun. */
  ghost predicate QueueFine<V>(s: State<V>) {
    && (forall i, j :: 0 <= i < j < |s.queue| ==> s.queue[i] != s.queue[j])
    && (forall c: nat :: c in s.queue ==> c !in s.results && c < |s.threads|)
    && (forall c: nat :: c in s.results || c in s.returned ==> c < |s.threads|)
  }

  /** A result that reached the record of call `c` is a task's own result, and the
      task was sent by the same thread. */
  ghost predicate Proper<V>(s: State<V>, c: nat, r: Result<V>) {
    && r.task in s.results && s.results[r.task] == r.value
    && ThreadOf(s, r.task) == ThreadOf(s, c) >= 0
  }

  ghost predicate ResultsFine<V>(s: State<V>) {
    && (forall t: nat :: t in s.ready ==> ThreadOf(s, s.ready[t]) == t)
    && (s.bus.Ran? ==> s.bus.task in s.results && s.results[s.bus.task] == s.bus.value)
    && (s.bus.Holds? ==> Proper(s, s.bus.record, Result(s.bus.value, s.bus.task)))
    && (forall c: nat :: c in s.records ==> Proper(s, c, s.records[c]))
    && (forall c: nat :: c in s.returned && s.returned[c].Got? ==> Proper(s, c, s.returned[c].result))
  }

  ghost predicate Inv<V>(s: State<V>) {
    PhasesFine(s) && QueueFine(s) && ResultsFine(s)
  }

  lemma NextPhases<V>(s: State<V>, e: Event<V>)
    requires Inv(s)
    ensures PhasesFine(Next(s, e))
  {
    assert s.queue != [] ==> s.queue[0] in s.queue;
    forall t: nat ensures PhaseFine(Next(s, e), t) {
      assert PhaseFine(s, t);
      if e.Push? { assert PhaseFine(s, e.thread); }
    }
  }

  lemma NextDistinct<V>(s: State<V>, e: Event<V>)
    requires Inv(s)
    ensures var q := Next(s, e).queue; forall i, j :: 0 <= i < j < |q| ==> q[i] != q[j]
  {
    if e.Push? {
      assert PhaseFine(s, e.thread);
    }
  }

  /** What is queued was queued before, or has just been pushed. */
  lemma QueuedBefore<V>(s: State<V>, e: Event<V>, c: nat)
    requires c in Next(s, e).queue
    ensures c in s.queue || (e.Push? && PhaseOf(s, e.thread) == Created(c))
  {
  }

  lemma NextQueued<V>(s: State<V>, e: Event<V>, c: nat)
    requires Inv(s) && c in Next(s, e).queue
    ensures c !in Next(s, e).results && c < |Next(s, e).threads|
  {
    QueuedBefore(s, e, c);
    if e.Push? {
      assert PhaseFine(s, e.thread);
    } else if e.Execute? && s.bus == Free && s.queue != [] {
      assert s.queue == [s.queue[0]] + s.queue[1..];
    }
  }

  lemma NextBegun<V>(s: State<V>, e: Event<V>, c: nat)
    requires Inv(s) && (c in Next(s, e).results || c in Next(s, e).returned)
    ensures c < |Next(s, e).threads|
  {
    if e.Take? || e.Expire? {
      assert PhaseFine(s, e.thread);
    } else if e.Execute? && s.queue != [] {
      assert s.queue[0] in s.queue;
    }
  }

  lemma NextQueue<V>(s: State<V>, e: Event<V>)
    requires Inv(s)
    ensures QueueFine(Next(s, e))
  {
    var after := Next(s, e);
    NextDistinct(s, e);
    forall c: nat | c in after.queue ensures c !in after.results && c < |after.threads| {
      NextQueued(s, e, c);
    }
    forall c: nat | c in after.results || c in after.returned ensures c < |after.threads| {
      NextBegun(s, e, c);
    }
  }

  lemma NextProper<V>(s: State<V>, e: Event<V>, c: nat, r: Result<V>)
    requires Inv(s) && Proper(s, c, r)
    ensures Proper(Next(s, e), c, r)
  {
  }

  lemma NextResults<V>(s: State<V>, e: Event<V>)
    requires Inv(s)
    ensures ResultsFine(Next(s, e))
  {
    var after := Next(s, e);
    forall c: nat, r: Result<V> | Proper(s, c, r) ensures Proper(after, c, r) {
      NextProper(s, e, c, r);
    }
    NextReady(s, e);
    NextBusFine(s, e);
    NextReturned(s, e);
  }

  lemma NextReady<V>(s: State<V>, e: Event<V>)
    requires Inv(s)
    ensures var after := Next(s, e); forall t: nat :: t in after.ready ==> ThreadOf(after, after.ready[t]) == t
  {
  }

  lemma NextBusFine<V>(s: State<V>, e: Event<V>)
    requires Inv(s)
    ensures var after := Next(s, e);
            && (after.bus.Ran? ==> after.bus.task in after.results && after.results[after.bus.task] == after.bus.value)
            && (after.bus.Holds? ==> Proper(after, after.bus.record, Result(after.bus.value, after.bus.task)))
  {
    if s.bus.Holds? && !e.Fill? {
      NextProper(s, e, s.bus.record, Result(s.bus.value, s.bus.task));
    }
  }

  lemma NextReturned<V>(s: State<V>, e: Event<V>)
    requires Inv(s)
    ensures var after := Next(s, e);
            && (forall c: nat :: c in after.records ==> Proper(after, c, after.records[c]))
            && (forall c: nat :: c in after.returned && after.returned[c].Got? ==> Proper(after, c, after.returned[c].result))
  {
    var after := Next(s, e);
    forall c: nat, r: Result<V> | Proper(s, c, r) ensures Proper(after, c, r) {
      NextProper(s, e, c, r);
    }
  }

  lemma NextInv<V>(s: State<V>, e: Event<V>)
    requires Inv(s)
    ensures Inv(Next(s, e))
  {
    NextPhases(s, e);
    NextQueue(s, e);
    NextResults(s, e);
  }

  lemma {:induction false} RunInv<V>(s: State<V>, es: seq<Event<V>>)
    requires Inv(s)
    ensures Inv(Run(s, es))
    decreases |es|
  {
    if es != [] {
      NextInv(s, es[0]);
      RunInv(Next(s, es[0]), es[1..]);
    }
  }

  /** In every run, whatever times out: a record is completed, and a call returns,
      only with the result of a task that the same thread sent. */
  lemma OwnThread<V>(es: seq<Event<V>>)
    ensures var s := Run(Initial<V>(), es);
            && (forall c: nat :: c in s.records ==> Proper(s, c, s.records[c]))
            && (forall c: nat :: c in s.returned && s.returned[c].Got? ==> Proper(s, c, s.returned[c].result))
  {
    RunInv(Initial<V>(), es);
  }

  // ------------------------------------------------------------ one's own result

  /** The task is queued, or run but its caller not yet looked up. */
  ghost predicate Outstanding<V>(s: State<V>, c: nat) {
    c in s.queue || (s.bus.Ran? && s.bus.task == c)
  }

  ghost predicate Inside<V>(s: State<V>, c: nat) {
    c < |s.threads| && (PhaseOf(s, s.threads[c]) == Created(c) || PhaseOf(s, s.threads[c]) == Waiting(c))
  }

  /** While call `c` is inside, no other task of its thread can reach its record; and
      what it returns is its own. */
  ghost predicate Own<V>(s: State<V>, c: nat) {
    && c < |s.threads|
    && (Inside(s, c) ==>
          && (forall d: nat :: Outstanding(s, d) && ThreadOf(s, d) == ThreadOf(s, c) ==> d == c)
          && (s.bus.Holds? && s.bus.record == c ==> s.bus.task == c)
          && (c in s.records ==> s.records[c].task == c))
    && (c in s.returned && s.returned[c].Got? ==> s.returned[c].result.task == c)
  }

  lemma NextOutstanding<V>(s: State<V>, e: Event<V>, d: nat)
    requires Outstanding(Next(s, e), d)
    ensures Outstanding(s, d) || (e.Push? && PhaseOf(s, e.thread) == Created(d))
  {
  }

  /** A call that is inside was inside before, unless it has just begun. */
  lemma InsideBefore<V>(s: State<V>, e: Event<V>, c: nat)
    requires Inv(s) && c < |s.threads|
    ensures Next(s, e).threads[..|s.threads|] == s.threads && Next(s, e).threads[c] == s.threads[c]
    ensures Inside(Next(s, e), c) ==> Inside(s, c)
  {
    var t := s.threads[c];
    PhaseBefore(s, e, t);
  }

  /** A thread's call is the one it was in, unless it has just begun a new one. */
  lemma PhaseBefore<V>(s: State<V>, e: Event<V>, t: nat)
    ensures var p, q := PhaseOf(s, t), PhaseOf(Next(s, e), t);
            && (q.Created? ==> p == q || q.call == |s.threads|)
            && (q.Waiting? ==> p == q || p == Created(q.call))
  {
  }

  lemma OutstandingFine<V>(s: State<V>, d: nat)
    requires Inv(s) && Outstanding(s, d)
    ensures d < |s.threads|
  {
  }

  lemma NextOwnTasks<V>(s: State<V>, e: Event<V>, c: nat, d: nat)
    requires Inv(s) && Own(s, c) && Inside(Next(s, e), c)
    requires Outstanding(Next(s, e), d) && ThreadOf(Next(s, e), d) == ThreadOf(Next(s, e), c)
    ensures d == c
  {
    InsideBefore(s, e, c);
    NextOutstanding(s, e, d);
    if Outstanding(s, d) {
      OutstandingFine(s, d);
      assert ThreadOf(s, d) == ThreadOf(s, c);
    } else {
      assert PhaseFine(s, e.thread);
    }
  }

  lemma NextOwnRecord<V>(s: State<V>, e: Event<V>, c: nat)
    requires Inv(s) && Own(s, c) && Inside(s, c)
    ensures var after := Next(s, e);
            && (after.bus.Holds? && after.bus.record == c ==> after.bus.task == c)
            && (c in after.records ==> after.records[c].task == c)
  {
    if e.Find? && s.bus.Ran? {
      assert Outstanding(s, s.bus.task);
      var t := ThreadOf(s, s.bus.task);
      if t >= 0 && t in s.ready && s.ready[t] == c {
        assert ThreadOf(s, c) == t;
      }
    }
  }

  lemma NextOwnReturn<V>(s: State<V>, e: Event<V>, c: nat)
    requires Inv(s) && Own(s, c)
    ensures var after := Next(s, e); c in after.returned && after.returned[c].Got? ==> after.returned[c].result.task == c
  {
    if e.Take? {
      assert PhaseFine(s, e.thread);
    }
  }

  lemma NextOwn<V>(s: State<V>, e: Event<V>, c: nat)
    requires Inv(s) && Own(s, c)
    ensures Own(Next(s, e), c)
  {
    var after := Next(s, e);
    InsideBefore(s, e, c);
    NextOwnReturn(s, e, c);
    if Inside(after, c) {
      NextOwnRecord(s, e, c);
      forall d: nat | Outstanding(after, d) && ThreadOf(after, d) == ThreadOf(after, c) ensures d == c {
        NextOwnTasks(s, e, c, d);
      }
    }
  }

  lemma {:induction false} RunOwn<V>(s: State<V>, es: seq<Event<V>>, c: nat)
    requires Inv(s) && Own(s, c)
    ensures Own(Run(s, es), c)
    decreases |es|
  {
    if es != [] {
      NextOwn(s, es[0], c);
      NextInv(s, es[0]);
      RunOwn(Next(s, es[0]), es[1..], c);
    }
  }

  /** Call `c` has returned with the result of another task. */
  ghost predicate Misdelivered<V>(s: State<V>, c: nat) {
    c in s.returned && s.returned[c].Got? && s.returned[c].result.task != c
  }

  lemma CleanCall<V>(s: State<V>, t: nat, es: seq<Event<V>>)
    requires Inv(s) && PhaseOf(s, t) == Idle
    requires forall d: nat :: Outstanding(s, d) ==> ThreadOf(s, d) != t
    ensures !Misdelivered(Run(Next(s, Begin(t)), es), |s.threads|)
  {
    var begun := Next(s, Begin(t));
    NextInv(s, Begin(t));
    forall d: nat | Outstanding(begun, d) ensures ThreadOf(begun, d) == ThreadOf(s, d) != t {
      NextOutstanding(s, Begin(t), d);
      assert d in s.results || d in s.queue;
    }
    assert Own(begun, |s.threads|);
    RunOwn(begun, es, |s.threads|);
  }

  // ------------------------------------------------------------ a late result

  function Distance<V>(s: State<V>): nat {
    3 * |s.queue| + match s.bus case Free => 0 case Holds(_, _, _) => 1 case Ran(_, _) => 2
  }

  /** What the bus thread does next. */
  function BusStep<V>(s: State<V>, v: V): Event<V> {
    match s.bus case Free => Execute(v) case Ran(_, _) => Find case Holds(_, _, _) => Fill
  }

  lemma OutstandingKept<V>(s: State<V>, v: V, d: nat)
    requires Outstanding(s, d)
    ensures Outstanding(Next(s, BusStep(s, v)), d) || (s.bus.Ran? && s.bus.task == d)
  {
    if s.bus.Free? {
      assert s.queue == [s.queue[0]] + s.queue[1..];
    }
  }

  lemma BusStepKeeps<V>(s: State<V>, v: V, d: nat)
    requires Outstanding(s, d)
    ensures var after := Next(s, BusStep(s, v));
            && after.threads == s.threads && after.phases == s.phases && after.ready == s.ready
            && Distance(after) < Distance(s)
  {
    var after := Next(s, BusStep(s, v));
    match s.bus
    case Free => assert |after.queue| == |s.queue| - 1;
    case Ran(_, _) => assert after.queue == s.queue;
    case Holds(_, _, _) => assert after.queue == s.queue;
  }

  /** If an earlier task of a waiting thread is outstanding, the bus thread can come
      to it first, and its result is what the thread gets. */
  lemma {:induction false} LateResult<V>(s: State<V>, v: V, t: nat, c: nat, d: nat) returns (es: seq<Event<V>>)
    requires PhaseOf(s, t) == Waiting(c) && t in s.ready && s.ready[t] == c
    requires Outstanding(s, d) && d != c && ThreadOf(s, d) == t
    ensures Misdelivered(Run(s, es), c)
    decreases Distance(s)
  {
    if s.bus.Ran? && s.bus.task == d {
      var s1 := Next(s, Find);
      var s2 := Next(s1, Fill);
      var s3 := Next(s2, Take(t));
      es := [Find, Fill, Take(t)];
      var e1: seq<Event<V>> := [Fill, Take(t)];
      var e2: seq<Event<V>> := [Take(t)];
      assert es[1..] == e1 && e1[1..] == e2 && e2[1..] == [];
      assert Run(s2, e2) == s3;
      assert Run(s1, e1) == Run(s2, e2);
    } else {
      var e := BusStep(s, v);
      BusStepKeeps(s, v, d);
      OutstandingKept(s, v, d);
      var rest := LateResult(Next(s, e), v, t, c, d);
      es := [e] + rest;
      assert es[1..] == rest;
    }
  }

  ghost predicate CanBeMisdelivered<V(!new)>(s: State<V>, c: nat) {
    exists es: seq<Event<V>> :: Misdelivered(Run(s, es), c)
  }

  /** Exactly when the result of another task can reach a call: at the moment the
      call begins, an earlier task of its thread is queued, or run and not yet
      delivered. That takes an earlier timeout. */
  lemma LateResultExact<V(!new)>(es: seq<Event<V>>, t: nat, v: V)
    requires PhaseOf(Run(Initial<V>(), es), t) == Idle
    ensures var s := Run(Initial<V>(), es);
            CanBeMisdelivered(Next(s, Begin(t)), |s.threads|) <==>
            exists d: nat :: Outstanding(s, d) && ThreadOf(s, d) == t
  {
    var s := Run(Initial<V>(), es);
    var begun := Next(s, Begin(t));
    RunInv(Initial<V>(), es);
    if d: nat :| Outstanding(s, d) && ThreadOf(s, d) == t {
      LateCall(s, v, t, d);
    } else if CanBeMisdelivered(begun, |s.threads|) {
      var run: seq<Event<V>> :| Misdelivered(Run(begun, run), |s.threads|);
      CleanCall(s, t, run);
    }
  }

  lemma LateCall<V(!new)>(s: State<V>, v: V, t: nat, d: nat)
    requires Inv(s) && PhaseOf(s, t) == Idle && Outstanding(s, d) && ThreadOf(s, d) == t
    ensures CanBeMisdelivered(Next(s, Begin(t)), |s.threads|)
  {
    var c := |s.threads|;
    var begun := Next(s, Begin(t));
    var pushed := Next(begun, Push(t));
    assert Outstanding(pushed, d) && ThreadOf(pushed, d) == t;
    var rest := LateResult(pushed, v, t, c, d);
    var all := [Push(t)] + rest;
    assert all[1..] == rest;
    assert Misdelivered(Run(begun, all), c);
  }

  // ------------------------------------------------------------ without timeouts

  /** Every task under way belongs to the call its thread waits in, whose record is
      still open; and every result went to its own call. */
  ghost predicate OpenCall<V>(s: State<V>, c: nat, p: Phase) {
    && c < |s.threads| && PhaseOf(s, s.threads[c]) == p
    && s.threads[c] in s.ready && s.ready[s.threads[c]] == c && c !in s.records
  }

  ghost predicate InStep<V>(s: State<V>) {
    && (forall d: nat :: Outstanding(s, d) ==> OpenCall(s, d, Waiting(d)))
    && (forall t: nat :: PhaseOf(s, t).Created? ==> OpenCall(s, PhaseOf(s, t).call, PhaseOf(s, t)))
    && (s.bus.Holds? ==> s.bus.record == s.bus.task && OpenCall(s, s.bus.task, Waiting(s.bus.task)))
    && (forall c: nat :: c in s.records ==> c < |s.threads| && s.records[c].task == c)
    && (forall c: nat :: c in s.returned ==> s.returned[c].Got? && s.returned[c].result.task == c)
  }

  /** A waiting call stays open until the bus thread fills its record. */
  lemma OpenKept<V>(s: State<V>, e: Event<V>, c: nat)
    requires OpenCall(s, c, Waiting(c)) && !e.Expire?
    requires e.Fill? && s.bus.Holds? ==> s.bus.record != c
    ensures OpenCall(Next(s, e), c, Waiting(c))
  {
  }

  lemma NextInStepTask<V>(s: State<V>, e: Event<V>, d: nat)
    requires Inv(s) && InStep(s) && !e.Expire? && Outstanding(Next(s, e), d)
    ensures OpenCall(Next(s, e), d, Waiting(d))
  {
    NextOutstanding(s, e, d);
    if Outstanding(s, d) {
      OneAtATime(s, d);
      OpenKept(s, e, d);
    } else {
      assert PhaseFine(s, e.thread);
    }
  }

  /** The bus thread holds no task that is also outstanding. */
  lemma OneAtATime<V>(s: State<V>, d: nat)
    requires Inv(s) && InStep(s) && Outstanding(s, d)
    ensures s.bus.Holds? ==> s.bus.task != d
  {
  }

  lemma NextInStepThread<V>(s: State<V>, e: Event<V>, t: nat)
    requires Inv(s) && InStep(s) && !e.Expire? && PhaseOf(Next(s, e), t).Created?
    ensures OpenCall(Next(s, e), PhaseOf(Next(s, e), t).call, PhaseOf(Next(s, e), t))
  {
    if PhaseOf(s, t).Created? {
      assert PhaseFine(s, t);
    }
  }

  lemma NextInStepBus<V>(s: State<V>, e: Event<V>)
    requires Inv(s) && InStep(s) && !e.Expire?
    ensures var after := Next(s, e);
            after.bus.Holds? ==> after.bus.record == after.bus.task && OpenCall(after, after.bus.task, Waiting(after.bus.task))
  {
    if s.bus.Ran? {
      assert Outstanding(s, s.bus.task);
    } else if s.bus.Holds? && !e.Fill? {
      OpenKept(s, e, s.bus.task);
    }
  }

  lemma NextInStepRecords<V>(s: State<V>, e: Event<V>)
    requires Inv(s) && InStep(s) && !e.Expire?
    ensures var after := Next(s, e);
            && (forall c: nat :: c in after.records ==> c < |after.threads| && after.records[c].task == c)
            && (forall c: nat :: c in after.returned ==> after.returned[c].Got? && after.returned[c].result.task == c)
  {
  }

  lemma NextInStep<V>(s: State<V>, e: Event<V>)
    requires Inv(s) && InStep(s) && !e.Expire?
    ensures InStep(Next(s, e))
  {
    var after := Next(s, e);
    NextInStepBus(s, e);
    NextInStepRecords(s, e);
    forall d: nat | Outstanding(after, d) ensures OpenCall(after, d, Waiting(d)) {
      NextInStepTask(s, e, d);
    }
    forall t: nat | PhaseOf(after, t).Created? ensures OpenCall(after, PhaseOf(after, t).call, PhaseOf(after, t)) {
      NextInStepThread(s, e, t);
    }
  }

  lemma {:induction false} RunInStep<V>(s: State<V>, es: seq<Event<V>>)
    requires Inv(s) && InStep(s) && forall i :: 0 <= i < |es| ==> !es[i].Expire?
    ensures InStep(Run(s, es)) && Inv(Run(s, es))
    decreases |es|
  {
    if es != [] {
      NextInStep(s, es[0]);
      NextInv(s, es[0]);
      RunInStep(Next(s, es[0]), es[1..]);
    }
  }

  /** In every run without timeouts each call returns exactly its own task's result. */
  lemma OwnResult<V>(es: seq<Event<V>>)
    requires forall i :: 0 <= i < |es| ==> !es[i].Expire?
    ensures var s := Run(Initial<V>(), es);
            forall c: nat :: c in s.returned ==> c in s.results && s.returned[c] == Got(Result(s.results[c], c))
  {
    RunInStep(Initial<V>(), es);
  }

  // ------------------------------------------------------------ who can be found, and who comes first

  lemma {:induction false} RunThen<V>(s: State<V>, es: seq<Event<V>>, e: Event<V>)
    ensures Run(s, es + [e]) == Next(Run(s, es), e)
    decreases |es|
  {
    var all := es + [e];
    if es == [] {
      assert all[1..] == [];
    } else {
      assert all[0] == es[0] && all[1..] == es[1..] + [e];
      RunThen(Next(s, es[0]), es[1..], e);
    }
  }

  ghost predicate ReadyFine<V>(s: State<V>, t: nat) {
    var p := PhaseOf(s, t);
    (t in s.ready <==> p != Idle) && (p.Created? || p.Waiting? ==> s.ready[t] == p.call)
  }

  lemma NextReadyFine<V>(s: State<V>, e: Event<V>, t: nat)
    requires ReadyFine(s, t)
    ensures ReadyFine(Next(s, e), t)
  {
  }

  /** In every run a thread's record can be found exactly while the thread is inside a
      call, and it is the record of that call; so what a timed-out call left behind
      finds nobody once the thread has gone. */
  lemma {:induction false} FoundOnlyInside<V>(es: seq<Event<V>>, t: nat)
    ensures ReadyFine(Run(Initial<V>(), es), t)
    decreases |es|
  {
    if es != [] {
      var k := |es| - 1;
      assert es == es[..k] + [es[k]];
      FoundOnlyInside(es[..k], t);
      RunThen(Initial<V>(), es[..k], es[k]);
      NextReadyFine(Run(Initial<V>(), es[..k]), es[k], t);
    }
  }

  /** The calls whose tasks were queued, in that order. */
  function Pushed<V>(es: seq<Event<V>>): seq<nat>
    decreases |es|
  {
    if es == [] then []
    else
      var front, e := es[..|es| - 1], es[|es| - 1];
      var s := Run(Initial<V>(), front);
      Pushed(front) + if e.Push? && PhaseOf(s, e.thread).Created? then [PhaseOf(s, e.thread).call] else []
  }

  /** The first `k` of the queued tasks have run, the others wait in their order. */
  ghost predicate RanFirst<V>(s: State<V>, pushed: seq<nat>, k: nat) {
    && k <= |pushed| && s.queue == pushed[k..]
    && forall c: nat :: c in s.results <==> c in pushed[..k]
  }

  lemma NextRanFirst<V>(s: State<V>, e: Event<V>, pushed: seq<nat>, k: nat)
    requires RanFirst(s, pushed, k)
    ensures if e.Execute? && s.bus == Free && s.queue != [] then RanFirst(Next(s, e), pushed, k + 1)
            else if e.Push? && PhaseOf(s, e.thread).Created?
            then RanFirst(Next(s, e), pushed + [PhaseOf(s, e.thread).call], k)
            else RanFirst(Next(s, e), pushed, k)
  {
    if e.Execute? && s.bus == Free && s.queue != [] {
      assert pushed[..k + 1] == pushed[..k] + [pushed[k]];
      assert pushed[k..][1..] == pushed[k + 1..];
    } else if e.Push? && PhaseOf(s, e.thread).Created? {
      var more := pushed + [PhaseOf(s, e.thread).call];
      assert more[..k] == pushed[..k] && more[k..] == pushed[k..] + [PhaseOf(s, e.thread).call];
    }
  }

  /** In every run the bus thread runs the tasks in the order in which they were queued. */
  lemma {:induction false} RunsInOrder<V>(es: seq<Event<V>>) returns (k: nat)
    ensures RanFirst(Run(Initial<V>(), es), Pushed(es), k)
    decreases |es|
  {
    if es == [] {
      k := 0;
    } else {
      var n := |es| - 1;
      var front, e := es[..n], es[n];
      assert es == front + [e];
      k := RunsInOrder(front);
      RunThen(Initial<V>(), front, e);
      var s := Run(Initial<V>(), front);
      NextRanFirst(s, e, Pushed(front), k);
      assert Pushed(front) + [] == Pushed(front);
      if e.Execute? && s.bus == Free && s.queue != [] {
        k := k + 1;
      }
    }
  }

  // ------------------------------------------------------------ the code

  /** One return of the timed wait: whether the time was up, and the fields by then. */
  datatype Wake<V> = Wake(timedOut: bool, calls: nat, ready: map<nat, nat>, records: map<nat, Result<V>>)

  /** No step of thread `t`. */
  predicate NoneBy<V>(es: seq<Event<V>>, t: nat) {
    forall i :: 0 <= i < |es| && !es[i].Execute? && !es[i].Find? && !es[i].Fill? ==> es[i].thread != t
  }

  lemma OtherLeavesPhase<V>(s: State<V>, e: Event<V>, t: nat)
    requires !e.Execute? && !e.Find? && !e.Fill? ==> e.thread != t
    ensures PhaseOf(Next(s, e), t) == PhaseOf(s, t)
  {
  }

  lemma {:induction false} OthersLeavePhase<V>(s: State<V>, es: seq<Event<V>>, t: nat)
    requires NoneBy(es, t)
    ensures PhaseOf(Run(s, es), t) == PhaseOf(s, t)
    decreases |es|
  {
    if es != [] {
      OtherLeavesPhase(s, es[0], t);
      OthersLeavePhase(Next(s, es[0]), es[1..], t);
    }
  }

  /** The wake-ups of thread `t` show what the steps of the others lead to. */
  ghost predicate Follows<V>(s: State<V>, t: nat, wakes: seq<Wake<V>>, others: seq<seq<Event<V>>>)
    decreases |wakes|
  {
    && |others| == |wakes|
    && (wakes == [] ||
        var s1 := Run(s, others[0]);
        && NoneBy(others[0], t)
        && wakes[0].calls == |s1.threads| && wakes[0].ready == s1.ready && wakes[0].records == s1.records
        && Follows(s1, t, wakes[1..], others[1..]))
  }

  /** The wait ends: the record is filled, or the time is up. */
  ghost predicate Stops<V>(s: State<V>, record: nat, wakes: seq<Wake<V>>, others: seq<seq<Event<V>>>)
    decreases |wakes|
  {
    record in s.records ||
    (wakes != [] && others != [] && (wakes[0].timedOut || Stops(Run(s, others[0]), record, wakes[1..], others[1..])))
  }

  datatype Ended<V> = Ended(state: State<V>, expired: bool)

  /** Where it ends, and whether by a timeout. */
  ghost function WaitEnd<V>(s: State<V>, record: nat, wakes: seq<Wake<V>>, others: seq<seq<Event<V>>>): Ended<V>
    decreases |wakes|
  {
    if record in s.records || wakes == [] || others == [] then Ended(s, false)
    else
      var s1 := Run(s, others[0]);
      if wakes[0].timedOut then Ended(s1, true) else WaitEnd(s1, record, wakes[1..], others[1..])
  }

  /** The map of waiting callers and their records, and the code between each lock
      and its unlock. */
  class ReadyTable<V> {
    var calls: nat
    var ready: map<nat, nat>
    var records: map<nat, Result<V>>

    constructor ()
      ensures Shows(Initial<V>())
    {
      calls, ready, records := 0, map[], map[];
    }

    ghost predicate Shows(s: State<V>)
      reads this
    {
      calls == |s.threads| && ready == s.ready && records == s.records
    }

    method NewRecord(t: nat, ghost s: State<V>) returns (record: nat)
      requires Shows(s) && PhaseOf(s, t) == Idle
      modifies this
      ensures Shows(Next(s, Begin(t))) && PhaseOf(Next(s, Begin(t)), t) == Created(record)
    {
      record := calls;
      calls := calls + 1;
      ready := ready[t := record];
    }

    /** The two locked blocks after a task has run; a caller that is gone gets nothing. */
    method Complete(task: nat, caller: nat, value: V, ghost s: State<V>) returns (found: bool)
      requires Shows(s) && s.bus == Ran(task, value) && ThreadOf(s, task) == caller
      modifies this
      ensures Shows(Next(Next(s, Find), Fill)) && Next(Next(s, Find), Fill).bus == Free
      ensures found <==> caller in s.ready
    {
      found := caller in ready;
      if found {
        var record := ready[caller];
        records := records[record := Result(value, task)];
      }
    }

    /** The wait loop. While the caller sleeps the other threads go on, and may fill its
        record: `wakes` are the returns of the timed wait, with the fields as the others
        left them. A record filled by then is returned, but not after a timeout. */
    method Wait(t: nat, record: nat, wakes: seq<Wake<V>>, ghost others: seq<seq<Event<V>>>, ghost s: State<V>)
      returns (r: Return<V>)
      requires Shows(s) && PhaseOf(s, t) == Waiting(record)
      requires Follows(s, t, wakes, others) && Stops(s, record, wakes, others)
      modifies this
      ensures var end := WaitEnd(s, record, wakes, others);
              && Shows(end.state) && PhaseOf(end.state, t) == Waiting(record)
              && (end.expired ==> Next(end.state, Expire(t)).returned == end.state.returned[record := r])
              && (!end.expired ==> record in end.state.records
                                   && Next(end.state, Take(t)).returned == end.state.returned[record := r])
    {
      var left := wakes;
      ghost var now, todo := s, others;
      ghost var end := WaitEnd(s, record, wakes, others);
      r := TimedOut;
      while record !in records
        modifies this
        invariant Shows(now) && PhaseOf(now, t) == Waiting(record) && r == TimedOut
        invariant Follows(now, t, left, todo) && Stops(now, record, left, todo)
        invariant WaitEnd(now, record, left, todo) == end
        decreases |left|
      {
        var wake := left[0];
        OthersLeavePhase(now, todo[0], t);
        calls, ready, records := wake.calls, wake.ready, wake.records;
        now := Run(now, todo[0]);
        if wake.timedOut {
          return;
        }
        left, todo := left[1..], todo[1..];
      }
      r := Got(records[record]);
    }

    method EraseRecord(t: nat, ghost s: State<V>)
      requires Shows(s) && PhaseOf(s, t) == Leaving
      modifies this
      ensures Shows(Next(s, Erase(t))) && PhaseOf(Next(s, Erase(t)), t) == Idle
    {
      ready := ready - {t};
    }
  }
}
