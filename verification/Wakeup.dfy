/** Waking the event loop (Core/SockWaiterBase.cpp, Core/EventLoop.cpp).

    Producers push a task under one lock and notify under another; a notification
    writes one byte to a pipe unless one is already pending. The loop wakes, clears
    the pending flag under the second lock, reads a byte outside it, and only then
    takes the tasks under the first. Each locked block is one step here. */
module Wakeup {

  /** Where the loop thread is. `Reading` lies between clearing the flag and the
      end of `GetAndClearNotify`: `ret` is what the poll returned, `owes` whether a
      byte is still to be read. In the state, `midway` are the producers between
      push and notify, `queued` logs every push, and `failed` tells whether the
      latest poll returned -1. */
  datatype Place = Polling | Reading(ret: int, owes: bool) | Swapping | Running | Exited

  datatype State<T> = State(flag: bool, pipe: nat, pending: seq<T>, midway: set<nat>, place: Place,
                            batch: seq<T>, executed: seq<T>, queued: seq<T>, terminal: bool, failed: bool)

  function Initial<T>(): State<T> {
    State(false, 0, [], {}, Polling, [], [], [], false, false)
  }

  datatype Event<T> =
    | Push(producer: nat, task: T)     // first half of QueueTaskToLoop
    | Notify(producer: nat)            // second half
    | NotifyOther                      // a removed or updated socket
    | Terminate
    | Wake(ret: int)                   // the poll returned; the flag is cleared
    | ReadByte
    | Swap
    | Execute
    | Exit

  function Notified<T>(s: State<T>): State<T> {
    s.(pipe := if s.flag then s.pipe else s.pipe + 1, flag := true)
  }

  function Next<T>(s: State<T>, e: Event<T>): State<T> {
    match e
    case Push(p, t) =>
      if p in s.midway then s
      else s.(pending := s.pending + [t], queued := s.queued + [t], midway := s.midway + {p})
    case Notify(p) =>
      if p !in s.midway then s else Notified(s).(midway := s.midway - {p})
    case NotifyOther => Notified(s)
    case Terminate => Notified(s).(terminal := true)
    case Wake(ret) =>
      if s.place != Polling then s
      else s.(place := Reading(ret, s.flag), flag := false, failed := ret == -1)
    case ReadByte =>
      if !s.place.Reading? then s
      else s.(pipe := if s.place.owes && s.pipe > 0 then s.pipe - 1 else s.pipe,
              place := if s.place.ret == -1 then Polling else Swapping)
    case Swap =>
      if s.place != Swapping then s
      else s.(batch := s.pending, pending := [], place := Running)
    case Execute =>
      if s.place != Running then s
      else if s.batch == [] then s.(place := Polling)
      else s.(executed := s.executed + [s.batch[0]], batch := s.batch[1..])
    case Exit =>
      if s.terminal && (s.place == Polling || (s.place == Running && s.batch == [])) then s.(place := Exited) else s
  }

  /** Bytes in the pipe: one for a pending flag, one for a byte the loop has not
      read yet. Tasks: each is done, in the batch or pending, in queue order. */
  ghost predicate Inv<T>(s: State<T>) {
    && s.pipe == (if s.flag then 1 else 0) + (if s.place.Reading? && s.place.owes then 1 else 0)
    && s.executed + (s.batch + s.pending) == s.queued
    && (s.batch != [] ==> s.place == Running)
  }

  /** A pending task has a wake-up on its way, or the loop is about to take it. */
  ghost predicate Covered<T>(s: State<T>) {
    s.pending != [] ==>
      s.flag || s.midway != {} || (s.place.Reading? && s.place.ret != -1) || s.place == Swapping
  }

  lemma Reassoc<T>(a: seq<T>, b: seq<T>, c: seq<T>, d: seq<T>)
    ensures (a + (b + c)) + d == a + (b + (c + d))
    ensures b != [] ==> (a + [b[0]]) + (b[1..] + c) == a + (b + c)
  {
    if b != [] {
      assert b == [b[0]] + b[1..];
    }
  }

  lemma NextKeepsInv<T>(s: State<T>, e: Event<T>)
    requires Inv(s)
    ensures Inv(Next(s, e))
  {
    match e
    case Push(p, t) => Reassoc(s.executed, s.batch, s.pending, [t]);
    case Execute => Reassoc(s.executed, s.batch, s.pending, []);
    case Swap =>
      if s.place == Swapping {
        assert s.batch == [] && s.batch + s.pending == s.pending + [];
      }
    case _ =>
  }

  ghost predicate CoveredOrFailed<T>(s: State<T>) {
    s.failed || (Covered(s) && (s.place.Reading? ==> s.place.ret != -1))
  }

  lemma NextKeepsCovered<T>(s: State<T>, e: Event<T>)
    requires CoveredOrFailed(s)
    ensures CoveredOrFailed(Next(s, e))
  {
  }

  function Run<T>(s: State<T>, es: seq<Event<T>>): State<T>
    decreases |es|
  {
    if es == [] then s else Run(Next(s, es[0]), es[1..])
  }

  lemma {:induction false} RunKeepsInv<T>(s: State<T>, es: seq<Event<T>>)
    requires Inv(s)
    ensures Inv(Run(s, es))
    decreases |es|
  {
    if es != [] {
      NextKeepsInv(s, es[0]);
      RunKeepsInv(Next(s, es[0]), es[1..]);
    }
  }

  lemma {:induction false} RunKeepsCovered<T>(s: State<T>, es: seq<Event<T>>)
    requires CoveredOrFailed(s)
    ensures CoveredOrFailed(Run(s, es))
    decreases |es|
  {
    if es != [] {
      NextKeepsCovered(s, es[0]);
      RunKeepsCovered(Next(s, es[0]), es[1..]);
    }
  }

  /** In every run the pipe holds at most two bytes, so the byte a notification
      writes always fits, and the loop never blocks on or misses the byte it owes;
      and tasks run exactly once, in the order they were queued. */
  lemma PipeAndOrder<T>(es: seq<Event<T>>)
    ensures var s := Run(Initial(), es);
            && s.pipe == (if s.flag then 1 else 0) + (if s.place.Reading? && s.place.owes then 1 else 0) <= 2
            && s.executed <= s.queued
            && s.executed + (s.batch + s.pending) == s.queued
  {
    assert Initial<T>().executed + (Initial<T>().batch + Initial<T>().pending) == [];
    RunKeepsInv(Initial(), es);
  }

  /** In every run a wake-up can be missing only while the latest poll is one that
      failed: otherwise, while the loop polls and no producer is between its two
      halves, a pending task means a readable pipe. */
  lemma NoLostWakeup<T>(es: seq<Event<T>>)
    ensures var s := Run(Initial(), es);
            && (!s.failed ==> Covered(s))
            && (!s.failed && s.place == Polling && s.pending != [] && s.midway == {} ==> s.pipe > 0)
  {
    PipeAndOrder(es);
    RunKeepsCovered(Initial(), es);
  }

  /** A failed poll loses the wake-up exactly when a task is pending and no producer
      is still to notify. */
  lemma FailedPollExact<T>(es: seq<Event<T>>)
    requires Run(Initial(), es).place == Polling
    ensures var s := Run(Initial(), es);
            Covered(Run(Initial(), es + [Wake(-1)])) <==> s.pending == [] || s.midway != {}
  {
    RunLast(Initial(), es, Wake(-1));
  }

  /** A wait that fails while a task is pending and nobody is still to notify. */
  predicate LosingPoll<T>(s: State<T>, e: Event<T>) {
    e == Wake(-1) && s.place == Polling && s.pending != [] && s.midway == {}
  }

  /** This is the only step that takes the cover from a pending task. */
  lemma NextCoveredExact<T>(s: State<T>, e: Event<T>)
    requires Covered(s)
    ensures Covered(Next(s, e)) <==> !LosingPoll(s, e)
  {
  }

  predicate NoLosingPoll<T>(s: State<T>, es: seq<Event<T>>)
    decreases |es|
  {
    es == [] || (!LosingPoll(s, es[0]) && NoLosingPoll(Next(s, es[0]), es[1..]))
  }

  ghost predicate AlwaysCovered<T>(s: State<T>, es: seq<Event<T>>)
    decreases |es|
  {
    Covered(s) && (es == [] || AlwaysCovered(Next(s, es[0]), es[1..]))
  }

  lemma {:induction false} RunCoveredExact<T>(s: State<T>, es: seq<Event<T>>)
    requires Covered(s)
    ensures AlwaysCovered(s, es) <==> NoLosingPoll(s, es)
    decreases |es|
  {
    if es != [] {
      NextCoveredExact(s, es[0]);
      if !LosingPoll(s, es[0]) {
        RunCoveredExact(Next(s, es[0]), es[1..]);
      }
    }
  }

  /** Over whole runs: every pending task has a wake-up on its way at every moment if and
      only if no wait fails while a task is pending and nobody is still to notify. */
  lemma WakeupExact<T>(es: seq<Event<T>>)
    ensures AlwaysCovered(Initial<T>(), es) <==> NoLosingPoll(Initial<T>(), es)
  {
    RunCoveredExact(Initial<T>(), es);
  }

  lemma {:induction false} RunLast<T>(s: State<T>, es: seq<Event<T>>, e: Event<T>)
    ensures Run(s, es + [e]) == Next(Run(s, es), e)
    decreases |es|
  {
    var all := es + [e];
    if es == [] {
      assert all[1..] == [];
    } else {
      assert all[0] == es[0] && all[1..] == es[1..] + [e];
      RunLast(Next(s, es[0]), es[1..], e);
    }
  }

  /** The task then stays pending with the flag down and the pipe empty. */
  lemma LostWakeup<T>(task: T)
    ensures var s := Run(Initial(), [Push(0, task), Notify(0), Wake(-1), ReadByte]);
            s.place == Polling && s.pending == [task] && !s.flag && s.pipe == 0 && s.midway == {}
  {
    var s0: State<T> := Initial();
    var s1 := Next(s0, Push(0, task));
    var s2 := Next(s1, Notify(0));
    var s3 := Next(s2, Wake(-1));
    assert s1.pending == [task];
    var e3: seq<Event<T>> := [ReadByte];
    var e2: seq<Event<T>> := [Wake(-1), ReadByte];
    var e1: seq<Event<T>> := [Notify(0), Wake(-1), ReadByte];
    var e0: seq<Event<T>> := [Push(0, task), Notify(0), Wake(-1), ReadByte];
    assert e0[1..] == e1 && e1[1..] == e2 && e2[1..] == e3 && e3[1..] == [];
    assert Run(s3, e3) == Run(Next(s3, ReadByte), []);
    assert Run(s2, e2) == Run(s3, e3);
    assert Run(s1, e1) == Run(s2, e2);
    assert Run(s0, e0) == Run(s1, e1);
  }

  /** Steps of other threads than the loop's. */
  predicate ByOthers<T>(es: seq<Event<T>>) {
    forall i :: 0 <= i < |es| ==> es[i].Push? || es[i].Notify? || es[i].NotifyOther? || es[i].Terminate?
  }

  lemma {:induction false} OthersOnlyAdd<T>(s: State<T>, es: seq<Event<T>>)
    requires ByOthers(es)
    ensures Run(s, es).place == s.place && Run(s, es).batch == s.batch && s.pending <= Run(s, es).pending
    decreases |es|
  {
    if es != [] {
      OthersOnlyAdd(Next(s, es[0]), es[1..]);
    }
  }

  /** ... until the next wait that does not fail, by a timeout at the latest. Whatever
      other threads do meanwhile, its drain takes every pending task, and whatever they
      queued up to then. */
  lemma NextWaitRecovers<T>(s: State<T>, a: seq<Event<T>>, ret: int, b: seq<Event<T>>, c: seq<Event<T>>)
    requires Inv(s) && s.place == Polling && ret != -1 && ByOthers(a) && ByOthers(b) && ByOthers(c)
    ensures var woken := Next(Run(s, a), Wake(ret));
            var ready := Run(Next(Run(woken, b), ReadByte), c);
            var taken := Next(ready, Swap);
            s.pending <= taken.batch && taken.batch == ready.pending && taken.pending == [] && taken.place == Running
  {
    OthersOnlyAdd(s, a);
    var woken := Next(Run(s, a), Wake(ret));
    OthersOnlyAdd(woken, b);
    var read := Next(Run(woken, b), ReadByte);
    OthersOnlyAdd(read, c);
  }

  // ------------------------------------------------------------ the drain and the end

  /** How many tasks the loop is asked to run. */
  function Executions<T>(es: seq<Event<T>>): nat {
    if es == [] then 0 else (if es[0].Execute? then 1 else 0) + Executions(es[1..])
  }

  predicate Draining<T>(es: seq<Event<T>>) {
    forall i :: 0 <= i < |es| ==> es[i].Execute? || ByOthers([es[i]])
  }

  lemma DrainStep<T>(s: State<T>, e: Event<T>)
    requires s.place == Running && (e.Execute? || ByOthers([e]))
    ensures var after := Next(s, e);
            if !e.Execute? then after.place == Running && after.batch == s.batch && after.executed == s.executed
            else if s.batch == [] then after.place == Polling && after.batch == [] && after.executed == s.executed
            else after.place == Running && after.batch == s.batch[1..] && after.executed == s.executed + [s.batch[0]]
  {
    assert !e.Execute? ==> [e][0] == e;
  }

  lemma {:induction false} DrainedStays<T>(s: State<T>, es: seq<Event<T>>)
    requires s.place == Polling && Draining(es)
    ensures Run(s, es).place == Polling && Run(s, es).batch == s.batch && Run(s, es).executed == s.executed
    decreases |es|
  {
    if es != [] {
      assert es[0].Execute? || ByOthers([es[0]]);
      assert ByOthers([es[0]]) ==> [es[0]][0] == es[0];
      assert Draining(es[1..]);
      DrainedStays(Next(s, es[0]), es[1..]);
    }
  }

  /** Whatever other threads do meanwhile: the drain runs its batch task by task, and
      with the step after the last one the loop polls again. */
  lemma {:induction false} DrainExact<T>(s: State<T>, es: seq<Event<T>>)
    requires s.place == Running && Draining(es)
    ensures var r, n := Run(s, es), Executions(es);
            if n <= |s.batch| then r.place == Running && r.batch == s.batch[n..] && r.executed == s.executed + s.batch[..n]
            else r.place == Polling && r.batch == [] && r.executed == s.executed + s.batch
    decreases |es|
  {
    if es != [] {
      var e, rest, after := es[0], es[1..], Next(s, es[0]);
      assert e.Execute? || ByOthers([e]);
      assert Draining(rest);
      DrainStep(s, e);
      if after.place == Polling {
        DrainedStays(after, rest);
      } else {
        DrainExact(after, rest);
        if e.Execute? {
          DrainedOne(s.executed, s.batch, Executions(rest));
        }
      }
    }
  }

  lemma DrainedOne<T>(done: seq<T>, batch: seq<T>, n: nat)
    requires batch != []
    ensures (done + [batch[0]]) + batch[1..] == done + batch
    ensures n < |batch| ==> (done + [batch[0]]) + batch[1..][..n] == done + batch[..n + 1] && batch[1..][n..] == batch[n + 1..]
  {
  }

  /** A whole turn of the loop, whatever other threads do between its steps: after a
      wait that does not fail, everything that was pending has been run, in order, and
      the loop polls again. */
  lemma TurnRunsPending<T>(s: State<T>, a: seq<Event<T>>, ret: int, b: seq<Event<T>>, c: seq<Event<T>>, d: seq<Event<T>>)
    requires Inv(s) && s.place == Polling && ret != -1 && ByOthers(a) && ByOthers(b) && ByOthers(c) && Draining(d)
    requires var ready := Run(Next(Run(Next(Run(s, a), Wake(ret)), b), ReadByte), c); Executions(d) > |ready.pending|
    ensures var ready := Run(Next(Run(Next(Run(s, a), Wake(ret)), b), ReadByte), c);
            var after := Run(Next(ready, Swap), d);
            && after.place == Polling && after.batch == []
            && s.executed + s.pending <= after.executed
  {
    NextWaitRecovers(s, a, ret, b, c);
    var ready := Run(Next(Run(Next(Run(s, a), Wake(ret)), b), ReadByte), c);
    DrainExact(Next(ready, Swap), d);
    ExecutedByOthers(s, a, ret, b, c);
    Appended(s.executed, s.pending, ready.pending);
  }

  lemma Appended<T>(done: seq<T>, some: seq<T>, all: seq<T>)
    requires some <= all
    ensures done + some <= done + all
  {
  }

  lemma ExecutedByOthers<T>(s: State<T>, a: seq<Event<T>>, ret: int, b: seq<Event<T>>, c: seq<Event<T>>)
    requires ByOthers(a) && ByOthers(b) && ByOthers(c)
    ensures Run(Next(Run(Next(Run(s, a), Wake(ret)), b), ReadByte), c).executed == s.executed
  {
    OthersRunNothing(s, a);
    var woken := Next(Run(s, a), Wake(ret));
    OthersRunNothing(woken, b);
    OthersRunNothing(Next(Run(woken, b), ReadByte), c);
  }

  lemma {:induction false} OthersRunNothing<T>(s: State<T>, es: seq<Event<T>>)
    requires ByOthers(es)
    ensures Run(s, es).executed == s.executed
    decreases |es|
  {
    if es != [] {
      OthersRunNothing(Next(s, es[0]), es[1..]);
    }
  }

  /** The loop was told to end, and left later. */
  ghost predicate ToldThenLeft<T>(es: seq<Event<T>>) {
    exists i, j :: 0 <= i < j < |es| && es[i] == Terminate && es[j] == Exit
  }

  /** In every run the loop has ended only if it was told to and left after that; it
      then has nothing left of its batch. */
  lemma {:induction false} EndsOnlyWhenTold<T>(es: seq<Event<T>>)
    ensures var s := Run(Initial(), es);
            && (s.terminal <==> Terminate in es)
            && (s.place == Exited ==> s.batch == [] && ToldThenLeft(es))
  {
    if es != [] {
      var k := |es| - 1;
      var front, e := es[..k], es[k];
      assert es == front + [e];
      EndsOnlyWhenTold(front);
      RunLast(Initial(), front, e);
      var s := Run(Initial(), front);
      if Next(s, e).place == Exited {
        EndsHow(es, s, e);
      }
    }
  }

  lemma EndsHow<T>(es: seq<Event<T>>, s: State<T>, e: Event<T>)
    requires es != [] && s == Run(Initial(), es[..|es| - 1]) && e == es[|es| - 1] && Next(s, e).place == Exited
    requires s.terminal <==> Terminate in es[..|es| - 1]
    requires s.place == Exited ==> s.batch == [] && ToldThenLeft(es[..|es| - 1])
    ensures Next(s, e).batch == [] && ToldThenLeft(es)
  {
    var k := |es| - 1;
    if s.place == Exited {
      var i, j :| 0 <= i < j < k && es[..k][i] == Terminate && es[..k][j] == Exit;
      assert es[i] == Terminate && es[j] == Exit;
    } else {
      var i :| 0 <= i < k && es[..k][i] == Terminate;
      assert es[i] == Terminate && es[k] == Exit;
      assert Initial<T>().executed + (Initial<T>().batch + Initial<T>().pending) == [];
      RunKeepsInv(Initial(), es[..k]);
    }
  }

  // ------------------------------------------------------------ the code

  /** The fields that producers and the loop share, and the code between each
      lock and its unlock. */
  class EventLoop<T> {
    var newnotify: bool
    var pipe: nat
    var pendings: seq<T>

    constructor ()
      ensures !newnotify && pipe == 0 && pendings == []
    {
      newnotify, pipe, pendings := false, 0, [];
    }

    ghost predicate Shows(s: State<T>)
      reads this
    {
      s.flag == newnotify && s.pipe == pipe && s.pending == pendings
    }

    method QueueTask(task: T, ghost producer: nat, ghost s: State<T>)
      requires Shows(s) && producer !in s.midway
      modifies this
      ensures Shows(Next(s, Push(producer, task)))
    {
      pendings := pendings + [task];
    }

    method NotifyNewActive(ghost producer: nat, ghost s: State<T>)
      requires Shows(s) && producer in s.midway
      modifies this
      ensures Shows(Next(s, Notify(producer)))
    {
      if !newnotify {
        pipe := pipe + 1;
      }
      newnotify := true;
    }

    /** The locked first half of `GetAndClearNotify`. */
    method ClearNotify(ghost ret: int, ghost s: State<T>) returns (needread: bool)
      requires Shows(s) && s.place == Polling
      modifies this
      ensures Shows(Next(s, Wake(ret))) && Next(s, Wake(ret)).place == Reading(ret, needread)
    {
      needread := newnotify;
      newnotify := false;
    }

    /** The unlocked second half: read one byte if one was announced. Interrupted
        reads are retried; an empty pipe ends the loop. */
    method ReadNotify(needread: bool, interruptions: nat, ghost s: State<T>)
      requires Shows(s) && s.place.Reading? && s.place.owes == needread
      modifies this
      ensures Shows(Next(s, ReadByte))
    {
      var tries := interruptions;
      var more := needread;
      while more
        invariant more ==> needread && pipe == s.pipe
        invariant !more ==> pipe == Next(s, ReadByte).pipe
        invariant newnotify == s.flag && pendings == s.pending
        decreases more, tries
      {
        if tries > 0 {
          tries := tries - 1;
        } else {
          if pipe > 0 {
            pipe := pipe - 1;
          }
          more := false;
        }
      }
    }

    method SwapTasks(ghost s: State<T>) returns (tasks: seq<T>)
      requires Shows(s) && s.place == Swapping
      modifies this
      ensures Shows(Next(s, Swap)) && Next(s, Swap).batch == tasks
    {
      tasks := pendings;
      pendings := [];
    }
  }
}
