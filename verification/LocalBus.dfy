/** The in-process bus (Core/msgbus_interface.cpp): messages are sent or posted, the
    bus thread drains both queues into batches, and each batch goes through the
    handlers registered for its message id. */
module LocalBus {
  import opened Bytes

  type Param = seq<Byte>

  datatype Option<T> = None | Some(value: T)

  datatype Task = Task(msgid: string, param: Param, caller: nat, ret: bool)

  // ------------------------------------------------------------ draining the queues

  /** Consecutive tasks to be run with one set of handlers. */
  datatype Batch = Batch(msgid: string, tasks: seq<Task>)

  function Flat(bs: seq<Batch>): seq<Task> {
    if bs == [] then [] else bs[0].tasks + Flat(bs[1..])
  }

  predicate WellBatched(b: Batch) {
    b.tasks != [] && forall i :: 0 <= i < |b.tasks| ==> b.tasks[i].msgid == b.msgid
  }

  /** No two neighbours could have been one batch. */
  predicate Alternate(bs: seq<Batch>) {
    forall i :: 0 <= i < |bs| - 1 ==> bs[i].msgid != bs[i + 1].msgid
  }

  /** The fields that callers and the bus thread share under `s_msgtask_locker`. */
  class TaskQueues {
    var sends: seq<Task>
    var posts: seq<Task>

    constructor ()
      ensures sends == [] && posts == []
    {
      sends, posts := [], [];
    }

    method QueueSend(msgid: string, param: Param, caller: nat)
      modifies this
      ensures sends == old(sends) + [Task(msgid, param, caller, false)] && posts == old(posts)
    {
      sends := sends + [Task(msgid, param, caller, false)];
    }

    /** Posted messages carry the bus thread as their caller. */
    method PostMsg(msgid: string, param: Param, busthread: nat)
      modifies this
      ensures posts == old(posts) + [Task(msgid, param, busthread, false)] && sends == old(sends)
    {
      posts := posts + [Task(msgid, param, busthread, false)];
    }

    /** The drain of `MsgTaskProcessProc`. All sends come first, each alone, then all
        posts, both in order; posts are batched in maximal runs of one message id. */
    method Drain() returns (running: seq<Batch>)
      modifies this
      ensures sends == [] && posts == []
      ensures Flat(running) == old(sends) + old(posts)
      ensures AllWell(running)
      ensures |running| >= |old(sends)|
      ensures forall i :: 0 <= i < |old(sends)| ==> running[i].tasks == [old(sends)[i]]
      ensures Alternate(running[|old(sends)|..])
    {
      ghost var all, later := Batched(sends, posts), Batched(sends, posts);
      running := [];
      while sends != [] || posts != []
        modifies this
        invariant later == Batched(sends, posts) && running + later == all
        decreases |sends| + |posts|
      {
        var batch;
        if sends != [] {
          batch := Batch(sends[0].msgid, [sends[0]]);
          sends := sends[1..];
        } else {
          batch := TakeRun();
        }
        Shift(running, later);
        later := later[1..];
        running := running + [batch];
      }
      assert later == [] && running + [] == running;
      BatchedFlat(old(sends), old(posts));
      BatchedParts(old(sends), old(posts));
    }

    /** The inner loop: the longest run of one message id at the front of the posts. */
    method TakeRun() returns (batch: Batch)
      requires posts != []
      modifies this`posts
      ensures var k := RunEnd(old(posts), old(posts)[0].msgid);
              && k > 0
              && batch == Batch(old(posts)[0].msgid, old(posts)[..k])
              && posts == old(posts)[k..]
    {
      var curmsgid := posts[0].msgid;
      var tasks := [posts[0]];
      posts := posts[1..];
      while posts != [] && posts[0].msgid == curmsgid
        modifies this`posts
        invariant tasks + posts == old(posts)
        invariant |tasks| + RunEnd(posts, curmsgid) == RunEnd(old(posts), curmsgid)
        decreases |posts|
      {
        tasks := tasks + [posts[0]];
        posts := posts[1..];
      }
      batch := Batch(curmsgid, tasks);
    }
  }

  lemma Shift<T>(a: seq<T>, b: seq<T>)
    ensures b != [] ==> (a + [b[0]]) + b[1..] == a + b
  {
    if b != [] {
      assert b == [b[0]] + b[1..];
    }
  }

  function RunEnd(posts: seq<Task>, msgid: string): (k: nat)
    ensures k <= |posts|
  {
    if posts == [] || posts[0].msgid != msgid then 0 else 1 + RunEnd(posts[1..], msgid)
  }

  lemma {:induction false} RunEndMeans(posts: seq<Task>, msgid: string)
    ensures var k := RunEnd(posts, msgid);
            && (forall i :: 0 <= i < k ==> posts[i].msgid == msgid)
            && (k < |posts| ==> posts[k].msgid != msgid)
  {
    if posts != [] && posts[0].msgid == msgid {
      RunEndMeans(posts[1..], msgid);
    }
  }

  /** The batches that the drain forms. */
  function Batched(sends: seq<Task>, posts: seq<Task>): seq<Batch>
    decreases |sends| + |posts|
  {
    if sends != [] then [Batch(sends[0].msgid, [sends[0]])] + Batched(sends[1..], posts)
    else if posts == [] then []
    else
      var k := RunEnd(posts, posts[0].msgid);
      [Batch(posts[0].msgid, posts[..k])] + Batched([], posts[k..])
  }

  predicate AllWell(bs: seq<Batch>) {
    forall i :: 0 <= i < |bs| ==> WellBatched(bs[i])
  }

  /** One batch put in front of well-formed batches. */
  lemma Fronted(b: Batch, rest: seq<Batch>, tasks: seq<Task>, later: seq<Task>)
    requires WellBatched(b) && AllWell(rest) && Flat(rest) == later && tasks == b.tasks + later
    ensures AllWell([b] + rest) && Flat([b] + rest) == tasks
  {
    assert ([b] + rest)[1..] == rest;
  }

  lemma {:induction false} PostsFlat(posts: seq<Task>)
    ensures Flat(Batched([], posts)) == posts && AllWell(Batched([], posts))
    decreases |posts|
  {
    if posts != [] {
      var k := RunEnd(posts, posts[0].msgid);
      RunEndMeans(posts, posts[0].msgid);
      PostsFlat(posts[k..]);
      Fronted(Batch(posts[0].msgid, posts[..k]), Batched([], posts[k..]), posts, posts[k..]);
    }
  }

  lemma {:induction false} BatchedFlat(sends: seq<Task>, posts: seq<Task>)
    ensures Flat(Batched(sends, posts)) == sends + posts && AllWell(Batched(sends, posts))
    decreases |sends|
  {
    if sends == [] {
      PostsFlat(posts);
      assert [] + posts == posts;
    } else {
      BatchedFlat(sends[1..], posts);
      Fronted(Batch(sends[0].msgid, [sends[0]]), Batched(sends[1..], posts), sends + posts, sends[1..] + posts);
    }
  }

  lemma {:induction false} BatchedParts(sends: seq<Task>, posts: seq<Task>)
    ensures |Batched(sends, posts)| >= |sends|
    ensures forall i :: 0 <= i < |sends| ==> Batched(sends, posts)[i].tasks == [sends[i]]
    ensures Alternate(Batched(sends, posts)[|sends|..])
    decreases |sends|
  {
    var all := Batched(sends, posts);
    if sends != [] {
      BatchedParts(sends[1..], posts);
      assert all[|sends|..] == Batched(sends[1..], posts)[|sends| - 1..];
      forall i | 0 <= i < |sends| ensures all[i].tasks == [sends[i]] {
        assert i > 0 ==> all[i] == Batched(sends[1..], posts)[i - 1];
      }
    } else {
      PostsAlternate(posts);
      assert all[0..] == all;
    }
  }

  lemma {:induction false} PostsAlternate(posts: seq<Task>)
    ensures Alternate(Batched([], posts))
    decreases |posts|
  {
    if posts != [] {
      var k := RunEnd(posts, posts[0].msgid);
      RunEndMeans(posts, posts[0].msgid);
      PostsAlternate(posts[k..]);
      var rest := Batched([], posts[k..]);
      var all := [Batch(posts[0].msgid, posts[..k])] + rest;
      forall i | 0 <= i < |all| - 1 ensures all[i].msgid != all[i + 1].msgid {
        assert all[i + 1] == rest[i];
        assert i > 0 ==> all[i] == rest[i - 1];
      }
    }
  }

  // ------------------------------------------------------------ handlers

  /** A registered handler: a weak reference, and whether only the bus thread may
      call it. */
  datatype Entry = Entry(id: nat, busOnly: bool)

  /** What handlers can see and change: the registry, which objects are alive, and
      everything else. */
  datatype Bus<W> = Bus(world: W, registry: map<string, seq<Entry>>, alive: set<nat>)

  /** What `OnMsg` leaves behind. */
  datatype Reply<W> = Reply(bus: Bus<W>, param: Param, goOn: bool, result: bool)

  type Behaviour<!W> = (nat, Bus<W>, string, Param) -> Reply<W>

  function Live(list: seq<Entry>, alive: set<nat>): seq<Entry> {
    if list == [] then []
    else (if list[0].id in alive then [list[0]] else []) + Live(list[1..], alive)
  }

  function Ids(list: seq<Entry>): seq<nat> {
    seq(|list|, i requires 0 <= i < |list| => list[i].id)
  }

  function Listed<W>(bus: Bus<W>, msgid: string): seq<Entry> {
    if msgid in bus.registry then bus.registry[msgid] else []
  }

  /** The handlers a message goes to, and the registry without its dead entries. */
  function Targets<W>(bus: Bus<W>, msgid: string): seq<nat> {
    Ids(Live(Listed(bus, msgid), bus.alive))
  }

  function Purged<W>(bus: Bus<W>, msgid: string): Bus<W> {
    if msgid !in bus.registry then bus
    else
      var live := Live(bus.registry[msgid], bus.alive);
      bus.(registry := if live == [] then bus.registry - {msgid} else bus.registry[msgid := live])
  }

  datatype Done<W> = Done(bus: Bus<W>, param: Param, result: bool)

  /** One task through its handlers. */
  function Handled<W>(on: Behaviour<W>, bus: Bus<W>, msgid: string, hs: seq<nat>, original: Param, param: Param, result: bool): Done<W>
    decreases |hs|
  {
    if hs == [] then Done(bus, param, result)
    else
      var r := on(hs[0], bus, msgid, original);
      var p := if r.result then r.param else param;
      if r.goOn then Handled(on, r.bus, msgid, hs[1..], original, p, r.result) else Done(r.bus, p, r.result)
  }

  /** The calls made, in order. Every handler gets the original parameter. */
  function Calls<W>(on: Behaviour<W>, bus: Bus<W>, msgid: string, hs: seq<nat>, original: Param): seq<Reply<W>>
    decreases |hs|
  {
    if hs == [] then []
    else
      var r := on(hs[0], bus, msgid, original);
      [r] + if r.goOn then Calls(on, r.bus, msgid, hs[1..], original) else []
  }

  /** `k` is the last call that returned true. */
  predicate LastTrue<W>(calls: seq<Reply<W>>, k: int) {
    0 <= k < |calls| && calls[k].result && forall j :: k < j < |calls| ==> !calls[j].result
  }

  /** What the calls are: a prefix of the handlers, all of them unless one asks to
      stop, and each sees the original parameter. */
  lemma {:induction false} CallsMean<W>(on: Behaviour<W>, bus: Bus<W>, msgid: string, hs: seq<nat>, original: Param, i: nat)
    ensures var calls := Calls(on, bus, msgid, hs, original);
            && |calls| <= |hs|
            && (|calls| < |hs| ==> |calls| > 0 && !calls[|calls| - 1].goOn)
            && (i < |calls| ==> calls[i] == on(hs[i], if i == 0 then bus else calls[i - 1].bus, msgid, original))
            && (i < |calls| - 1 ==> calls[i].goOn)
    decreases |hs|
  {
    if hs != [] {
      var r := on(hs[0], bus, msgid, original);
      if r.goOn {
        CallsMean(on, r.bus, msgid, hs[1..], original, if i == 0 then 0 else i - 1);
      }
    }
  }

  /** The parameter returned is that of the last handler that returned true, or the
      one given; the result is that of the last handler called. */
  lemma HandledMeans<W>(on: Behaviour<W>, bus: Bus<W>, msgid: string, hs: seq<nat>, original: Param, param: Param, result: bool)
    ensures var calls := Calls(on, bus, msgid, hs, original);
            var d := Handled(on, bus, msgid, hs, original, param, result);
            && d.result == (if calls == [] then result else calls[|calls| - 1].result)
            && d.bus == (if calls == [] then bus else calls[|calls| - 1].bus)
            && (forall k :: LastTrue(calls, k) ==> d.param == calls[k].param)
            && ((forall k :: 0 <= k < |calls| ==> !calls[k].result) ==> d.param == param)
  {
    HandledEnd(on, bus, msgid, hs, original, param, result);
    HandledParam(on, bus, msgid, hs, original, param, result);
  }

  lemma {:induction false} HandledEnd<W>(on: Behaviour<W>, bus: Bus<W>, msgid: string, hs: seq<nat>, original: Param, param: Param, result: bool)
    ensures var calls := Calls(on, bus, msgid, hs, original);
            var d := Handled(on, bus, msgid, hs, original, param, result);
            && d.result == (if calls == [] then result else calls[|calls| - 1].result)
            && d.bus == (if calls == [] then bus else calls[|calls| - 1].bus)
    decreases |hs|
  {
    if hs != [] {
      var r := on(hs[0], bus, msgid, original);
      if r.goOn {
        HandledEnd(on, r.bus, msgid, hs[1..], original, if r.result then r.param else param, r.result);
        var rest := Calls(on, r.bus, msgid, hs[1..], original);
        assert Calls(on, bus, msgid, hs, original) == [r] + rest;
        assert rest != [] ==> ([r] + rest)[|rest|] == rest[|rest| - 1];
      }
    }
  }

  /** The parameter left by calls that began with `param`. */
  ghost predicate ParamOf<W>(calls: seq<Reply<W>>, param: Param, left: Param) {
    && (forall k :: LastTrue(calls, k) ==> left == calls[k].param)
    && ((forall k :: 0 <= k < |calls| ==> !calls[k].result) ==> left == param)
  }

  lemma {:induction false} HandledParam<W>(on: Behaviour<W>, bus: Bus<W>, msgid: string, hs: seq<nat>, original: Param, param: Param, result: bool)
    ensures ParamOf(Calls(on, bus, msgid, hs, original), param, Handled(on, bus, msgid, hs, original, param, result).param)
    decreases |hs|
  {
    if hs != [] {
      var r := on(hs[0], bus, msgid, original);
      var p := if r.result then r.param else param;
      if r.goOn {
        HandledParam(on, r.bus, msgid, hs[1..], original, p, r.result);
        var rest := Calls(on, r.bus, msgid, hs[1..], original);
        ParamStep(r, rest, param, Handled(on, r.bus, msgid, hs[1..], original, p, r.result).param);
      } else {
        ParamStep(r, [], param, p);
        assert [r] + [] == [r];
      }
    }
  }

  /** One more call in front. */
  lemma ParamStep<W>(r: Reply<W>, rest: seq<Reply<W>>, param: Param, left: Param)
    requires ParamOf(rest, if r.result then r.param else param, left)
    ensures ParamOf([r] + rest, param, left)
  {
    AfterFirst(r, rest);
    var calls := [r] + rest;
    forall k | LastTrue(calls, k) ensures left == calls[k].param {
      if k > 0 {
        assert LastTrue(rest, k - 1);
      } else {
        assert calls[0] == r;
      }
    }
  }

  lemma AfterFirst<W>(r: Reply<W>, rest: seq<Reply<W>>)
    ensures var calls := [r] + rest;
            && (forall k :: k > 0 && LastTrue(calls, k) ==> LastTrue(rest, k - 1) && calls[k] == rest[k - 1])
            && (LastTrue(calls, 0) ==> r.result && forall k :: 0 <= k < |rest| ==> !rest[k].result)
            && ((forall k :: 0 <= k < |calls| ==> !calls[k].result) ==>
                  !r.result && forall k :: 0 <= k < |rest| ==> !rest[k].result)
  {
    var calls := [r] + rest;
    assert calls[0] == r && forall k :: 0 <= k < |rest| ==> rest[k] == calls[k + 1];
  }

  /** The tasks of one batch, all through the same handlers. */
  datatype Executed<W> = Executed(bus: Bus<W>, tasks: seq<Task>)

  function ExecuteAll<W>(on: Behaviour<W>, bus: Bus<W>, msgid: string, hs: seq<nat>, tasks: seq<Task>): Executed<W>
    decreases |tasks|
  {
    if tasks == [] then Executed(bus, [])
    else
      var d := Handled(on, bus, msgid, hs, tasks[0].param, tasks[0].param, false);
      var rest := ExecuteAll(on, d.bus, msgid, hs, tasks[1..]);
      Executed(rest.bus, [tasks[0].(param := d.param, ret := d.result)] + rest.tasks)
  }

  /** `SendMsgInMsgBusThread`: handlers are looked up once for the whole batch. */
  function Dispatched<W>(on: Behaviour<W>, bus: Bus<W>, msgid: string, tasks: seq<Task>): Executed<W> {
    ExecuteAll(on, Purged(bus, msgid), msgid, Targets(bus, msgid), tasks)
  }

  function RunBatches<W>(on: Behaviour<W>, bus: Bus<W>, bs: seq<Batch>): Executed<W>
    decreases |bs|
  {
    if bs == [] then Executed(bus, [])
    else
      var first := Dispatched(on, bus, bs[0].msgid, bs[0].tasks);
      var rest := RunBatches(on, first.bus, bs[1..]);
      Executed(rest.bus, first.tasks + rest.tasks)
  }

  /** The simple form: every task looks its handlers up afresh. */
  function RunEach<W>(on: Behaviour<W>, bus: Bus<W>, tasks: seq<Task>): Executed<W>
    decreases |tasks|
  {
    if tasks == [] then Executed(bus, [])
    else
      var first := Dispatched(on, bus, tasks[0].msgid, [tasks[0]]);
      var rest := RunEach(on, first.bus, tasks[1..]);
      Executed(rest.bus, first.tasks + rest.tasks)
  }

  lemma {:induction false} LiveTwice(list: seq<Entry>, alive: set<nat>)
    ensures Live(Live(list, alive), alive) == Live(list, alive)
  {
    if list != [] {
      LiveTwice(list[1..], alive);
      var rest := Live(list[1..], alive);
      if list[0].id in alive {
        assert ([list[0]] + rest)[1..] == rest;
      } else {
        assert [] + rest == rest;
      }
    }
  }

  /** A bus from which nothing is left to purge for `msgid`. */
  ghost predicate Clean<W>(bus: Bus<W>, msgid: string, hs: seq<nat>) {
    Purged(bus, msgid) == bus && Targets(bus, msgid) == hs
  }

  lemma PurgedIsClean<W>(bus: Bus<W>, msgid: string)
    ensures Clean(Purged(bus, msgid), msgid, Targets(bus, msgid))
  {
    if msgid in bus.registry {
      LiveTwice(bus.registry[msgid], bus.alive);
      assert Live([], bus.alive) == [];
    }
  }

  lemma OneTask<W>(on: Behaviour<W>, bus: Bus<W>, msgid: string, hs: seq<nat>, t: Task)
    ensures var d := Handled(on, bus, msgid, hs, t.param, t.param, false);
            ExecuteAll(on, bus, msgid, hs, [t]) == Executed(d.bus, [t.(param := d.param, ret := d.result)])
  {
    var d := Handled(on, bus, msgid, hs, t.param, t.param, false);
    assert [t][1..] == [];
    assert ExecuteAll(on, d.bus, msgid, hs, []) == Executed(d.bus, []);
  }

  /** In the batched run, a lookup before each of the tasks would find the handlers of
      the batch, and nothing to purge. */
  ghost predicate StaysClean<W>(on: Behaviour<W>, bus: Bus<W>, msgid: string, hs: seq<nat>, tasks: seq<Task>)
    decreases |tasks|
  {
    tasks == [] ||
    (Clean(bus, msgid, hs)
     && StaysClean(on, Handled(on, bus, msgid, hs, tasks[0].param, tasks[0].param, false).bus, msgid, hs, tasks[1..]))
  }

  /** In the run one at a time, the lookup of each of the tasks does find them. */
  ghost predicate FindsClean<W>(on: Behaviour<W>, bus: Bus<W>, msgid: string, hs: seq<nat>, tasks: seq<Task>)
    decreases |tasks|
  {
    tasks == [] ||
    (Clean(bus, msgid, hs) && FindsClean(on, Dispatched(on, bus, msgid, [tasks[0]]).bus, msgid, hs, tasks[1..]))
  }

  /** Exactly when every task of a batch gets the handlers it would get by itself. */
  lemma {:induction false} BatchExact<W>(on: Behaviour<W>, bus: Bus<W>, msgid: string, hs: seq<nat>, tasks: seq<Task>)
    ensures StaysClean(on, bus, msgid, hs, tasks) <==> FindsClean(on, bus, msgid, hs, tasks)
    decreases |tasks|
  {
    if tasks != [] && Clean(bus, msgid, hs) {
      OneTask(on, bus, msgid, hs, tasks[0]);
      BatchExact(on, Handled(on, bus, msgid, hs, tasks[0].param, tasks[0].param, false).bus, msgid, hs, tasks[1..]);
    }
  }

  lemma {:induction false} CleanBatch<W>(on: Behaviour<W>, bus: Bus<W>, msgid: string, hs: seq<nat>, tasks: seq<Task>)
    requires StaysClean(on, bus, msgid, hs, tasks)
    requires forall i :: 0 <= i < |tasks| ==> tasks[i].msgid == msgid
    ensures ExecuteAll(on, bus, msgid, hs, tasks) == RunEach(on, bus, tasks)
    decreases |tasks|
  {
    if tasks != [] {
      var t := tasks[0];
      CleanBatch(on, Handled(on, bus, msgid, hs, t.param, t.param, false).bus, msgid, hs, tasks[1..]);
      OneTask(on, bus, msgid, hs, t);
    }
  }

  ghost predicate BatchStaysClean<W>(on: Behaviour<W>, bus: Bus<W>, b: Batch) {
    StaysClean(on, Purged(bus, b.msgid), b.msgid, Targets(bus, b.msgid), b.tasks)
  }

  /** A batch is the same as its tasks one at a time. */
  lemma BatchIsEach<W>(on: Behaviour<W>, bus: Bus<W>, b: Batch)
    requires BatchStaysClean(on, bus, b) && WellBatched(b)
    ensures Dispatched(on, bus, b.msgid, b.tasks) == RunEach(on, bus, b.tasks)
  {
    var t, hs, clean := b.tasks[0], Targets(bus, b.msgid), Purged(bus, b.msgid);
    PurgedIsClean(bus, b.msgid);
    CleanBatch(on, clean, b.msgid, hs, b.tasks);
    assert Dispatched(on, clean, t.msgid, [t]) == Dispatched(on, bus, t.msgid, [t]);
  }

  lemma {:induction false} RunEachAppend<W>(on: Behaviour<W>, bus: Bus<W>, a: seq<Task>, b: seq<Task>)
    ensures var first := RunEach(on, bus, a);
            var rest := RunEach(on, first.bus, b);
            RunEach(on, bus, a + b) == Executed(rest.bus, first.tasks + rest.tasks)
    decreases |a|
  {
    if a == [] {
      assert a + b == b;
      assert [] + RunEach(on, bus, b).tasks == RunEach(on, bus, b).tasks;
    } else {
      var first := Dispatched(on, bus, a[0].msgid, [a[0]]);
      assert (a + b)[0] == a[0] && (a + b)[1..] == a[1..] + b;
      RunEachAppend(on, first.bus, a[1..], b);
      var middle := RunEach(on, first.bus, a[1..]);
      Assoc(first.tasks, middle.tasks, RunEach(on, middle.bus, b).tasks);
    }
  }

  /** Every batch of the run stays clean. */
  ghost predicate AllStayClean<W>(on: Behaviour<W>, bus: Bus<W>, bs: seq<Batch>)
    decreases |bs|
  {
    bs == [] ||
    (BatchStaysClean(on, bus, bs[0]) && AllStayClean(on, Dispatched(on, bus, bs[0].msgid, bs[0].tasks).bus, bs[1..]))
  }

  /** Batched dispatch refines dispatch one at a time: as long as each task of a batch
      leaves the others the handlers of the batch, every result and every effect is the
      same. What handlers do to other messages' entries does not matter. */
  lemma {:induction false} BatchedIsOneByOne<W>(on: Behaviour<W>, bus: Bus<W>, bs: seq<Batch>)
    requires AllStayClean(on, bus, bs) && AllWell(bs)
    ensures RunBatches(on, bus, bs) == RunEach(on, bus, Flat(bs))
    decreases |bs|
  {
    if bs != [] {
      BatchIsEach(on, bus, bs[0]);
      BatchedIsOneByOne(on, RunEach(on, bus, bs[0].tasks).bus, bs[1..]);
      RunEachAppend(on, bus, bs[0].tasks, Flat(bs[1..]));
    }
  }

  // ------------------------------------------------------------ handlers that leave their own message alone

  /** The entry of `msgid`, and which of its handlers live, are the same. */
  ghost predicate SameFor<W>(bus: Bus<W>, later: Bus<W>, msgid: string) {
    && (msgid in later.registry <==> msgid in bus.registry) && Listed(later, msgid) == Listed(bus, msgid)
    && forall e :: e in Listed(bus, msgid) ==> (e.id in later.alive <==> e.id in bus.alive)
  }

  /** A handler called for a message neither registers nor unregisters for that
      message, and none of that message's handlers dies meanwhile. */
  ghost predicate Steady<W(!new)>(on: Behaviour<W>) {
    forall h: nat, bus: Bus<W>, msgid: string, p: Param :: SameFor(bus, on(h, bus, msgid, p).bus, msgid)
  }

  lemma {:induction false} LiveSame(list: seq<Entry>, alive: set<nat>, later: set<nat>)
    requires forall e :: e in list ==> (e.id in later <==> e.id in alive)
    ensures Live(list, later) == Live(list, alive)
  {
    if list != [] {
      assert list[0] in list && forall e :: e in list[1..] ==> e in list;
      LiveSame(list[1..], alive, later);
    }
  }

  lemma CleanKept<W>(bus: Bus<W>, later: Bus<W>, msgid: string, hs: seq<nat>)
    requires Clean(bus, msgid, hs) && SameFor(bus, later, msgid)
    ensures Clean(later, msgid, hs)
  {
    LiveSame(Listed(bus, msgid), bus.alive, later.alive);
    if msgid in later.registry {
      var live := Live(bus.registry[msgid], bus.alive);
      assert bus.registry == if live == [] then bus.registry - {msgid} else bus.registry[msgid := live];
      assert live != [] && live == later.registry[msgid];
      assert later.registry[msgid := live] == later.registry;
    }
  }

  lemma {:induction false} HandledSteady<W(!new)>(on: Behaviour<W>, bus: Bus<W>, msgid: string, hs: seq<nat>, original: Param, param: Param, result: bool)
    requires Steady(on)
    ensures SameFor(bus, Handled(on, bus, msgid, hs, original, param, result).bus, msgid)
    decreases |hs|
  {
    if hs != [] {
      var r := on(hs[0], bus, msgid, original);
      assert SameFor(bus, r.bus, msgid);
      HandledSteady(on, r.bus, msgid, hs[1..], original, if r.result then r.param else param, r.result);
    }
  }

  lemma {:induction false} SteadyStaysClean<W(!new)>(on: Behaviour<W>, bus: Bus<W>, msgid: string, hs: seq<nat>, tasks: seq<Task>)
    requires Steady(on) && Clean(bus, msgid, hs)
    ensures StaysClean(on, bus, msgid, hs, tasks)
    decreases |tasks|
  {
    if tasks != [] {
      var later := Handled(on, bus, msgid, hs, tasks[0].param, tasks[0].param, false).bus;
      HandledSteady(on, bus, msgid, hs, tasks[0].param, tasks[0].param, false);
      CleanKept(bus, later, msgid, hs);
      SteadyStaysClean(on, later, msgid, hs, tasks[1..]);
    }
  }

  /** Handlers that leave their own message alone keep every batch clean, on every bus
      and for every list of batches. */
  lemma {:induction false} SteadyAllStayClean<W(!new)>(on: Behaviour<W>, bus: Bus<W>, bs: seq<Batch>)
    requires Steady(on)
    ensures AllStayClean(on, bus, bs)
    decreases |bs|
  {
    if bs != [] {
      PurgedIsClean(bus, bs[0].msgid);
      SteadyStaysClean(on, Purged(bus, bs[0].msgid), bs[0].msgid, Targets(bus, bs[0].msgid), bs[0].tasks);
      SteadyAllStayClean(on, Dispatched(on, bus, bs[0].msgid, bs[0].tasks).bus, bs[1..]);
    }
  }

  // ------------------------------------------------------------ exactly which handlers

  /** One task of message `m`, on any bus from which nothing is left to purge for `m`,
      leaves it so, with the same handlers to call. */
  ghost predicate LeavesOwn<W(!new)>(on: Behaviour<W>, m: string) {
    forall bus: Bus<W>, p: Param :: Clean(bus, m, Targets(bus, m)) ==>
      Clean(AfterOne(on, bus, m, p), m, Targets(bus, m))
  }

  function AfterOne<W>(on: Behaviour<W>, bus: Bus<W>, m: string, p: Param): Bus<W> {
    Handled(on, bus, m, Targets(bus, m), p, p, false).bus
  }

  /** Every batch of message `m` stays clean, on every bus. */
  ghost predicate AlwaysStaysClean<W(!new)>(on: Behaviour<W>, m: string) {
    forall bus: Bus<W>, tasks: seq<Task> :: BatchStaysClean(on, bus, Batch(m, tasks))
  }

  lemma {:induction false} LeavesOwnKeeps<W(!new)>(on: Behaviour<W>, bus: Bus<W>, m: string, tasks: seq<Task>)
    requires LeavesOwn(on, m) && Clean(bus, m, Targets(bus, m))
    ensures StaysClean(on, bus, m, Targets(bus, m), tasks)
    decreases |tasks|
  {
    if tasks != [] {
      var later := AfterOne(on, bus, m, tasks[0].param);
      assert Clean(later, m, Targets(bus, m));
      LeavesOwnKeeps(on, later, m, tasks[1..]);
    }
  }

  lemma TwoTasksShow<W(!new)>(on: Behaviour<W>, bus: Bus<W>, m: string, p: Param)
    requires AlwaysStaysClean(on, m) && Clean(bus, m, Targets(bus, m))
    ensures Clean(AfterOne(on, bus, m, p), m, Targets(bus, m))
  {
    var t := Task(m, p, 0, false);
    var two := [t, t];
    assert BatchStaysClean(on, bus, Batch(m, two));
    assert two[1..] == [t] && [t][1..] == [];
    assert StaysClean(on, AfterOne(on, bus, m, p), m, Targets(bus, m), [t]);
  }

  /** The exact condition on the handlers of a message: every batch of it, on every bus,
      gets the handlers of fresh lookups throughout if and only if no single task changes
      what a lookup for that message finds. */
  lemma BatchingExact<W(!new)>(on: Behaviour<W>, m: string)
    ensures AlwaysStaysClean(on, m) <==> LeavesOwn(on, m)
  {
    if AlwaysStaysClean(on, m) {
      forall bus: Bus<W>, p: Param | Clean(bus, m, Targets(bus, m))
        ensures Clean(AfterOne(on, bus, m, p), m, Targets(bus, m))
      {
        TwoTasksShow(on, bus, m, p);
      }
    }
    if LeavesOwn(on, m) {
      forall bus: Bus<W>, tasks: seq<Task> ensures BatchStaysClean(on, bus, Batch(m, tasks)) {
        PurgedIsClean(bus, m);
        LeavesOwnKeeps(on, Purged(bus, m), m, tasks);
      }
    }
  }

  /** So handlers that all leave their own messages so make batched dispatch the same as
      dispatch one at a time, for every list of batches on every bus. */
  lemma {:induction false} BatchingIsSafe<W(!new)>(on: Behaviour<W>, bus: Bus<W>, bs: seq<Batch>)
    requires AllWell(bs) && forall m: string :: LeavesOwn(on, m)
    ensures AllStayClean(on, bus, bs) && RunBatches(on, bus, bs) == RunEach(on, bus, Flat(bs))
  {
    LeavingOwnStaysClean(on, bus, bs);
    BatchedIsOneByOne(on, bus, bs);
  }

  lemma {:induction false} LeavingOwnStaysClean<W(!new)>(on: Behaviour<W>, bus: Bus<W>, bs: seq<Batch>)
    requires forall m: string :: LeavesOwn(on, m)
    ensures AllStayClean(on, bus, bs)
    decreases |bs|
  {
    if bs != [] {
      var b := bs[0];
      BatchingExact(on, b.msgid);
      assert BatchStaysClean(on, bus, Batch(b.msgid, b.tasks));
      LeavingOwnStaysClean(on, Dispatched(on, bus, b.msgid, b.tasks).bus, bs[1..]);
    }
  }

  /** The condition matters: a handler that unregisters itself still gets the second
      message of a batch, but not of two batches. */
  lemma BatchingKeepsStaleHandlers()
    ensures var on: Behaviour<()> := (h: nat, b: Bus<()>, m: string, p: Param) => Reply(b.(registry := map[]), p, true, true);
            var bus := Bus((), map["m" := [Entry(0, false)]], {0});
            var t := Task("m", [], 1, false);
            && WellBatched(Batch("m", [t, t]))
            && RunBatches(on, bus, [Batch("m", [t, t])]).tasks[1].ret
            && !RunEach(on, bus, [t, t]).tasks[1].ret
  {
    var on: Behaviour<()> := (h: nat, b: Bus<()>, m: string, p: Param) => Reply(b.(registry := map[]), p, true, true);
    var list := [Entry(0, false)];
    var bus := Bus((), map["m" := list], {0});
    var none := bus.(registry := map[]);
    var t := Task("m", [], 1, false);
    assert list[1..] == [] && Live([], {0}) == [] && Live(list, {0}) == list;
    var hs: seq<nat> := [0];
    assert Targets(bus, "m") == hs && Purged(bus, "m") == bus && hs[1..] == [];
    assert Handled(on, none, "m", [], [], [], true) == Done(none, [], true);
    assert Handled(on, bus, "m", hs, [], [], false) == Done(none, [], true);
    assert Handled(on, none, "m", hs, [], [], false) == Done(none, [], true);
    assert Targets(none, "m") == [] && Purged(none, "m") == none;
    assert Handled(on, none, "m", [], [], [], false) == Done(none, [], false);
    assert [t, t][1..] == [t] && [t][1..] == [];
    OneTask(on, none, "m", hs, t);
    OneTask(on, bus, "m", hs, t);
    OneTask(on, none, "m", [], t);
    var bs := [Batch("m", [t, t])];
    assert bs[1..] == [];
    assert RunBatches(on, bus, bs).tasks == Dispatched(on, bus, "m", [t, t]).tasks + [];
    assert RunEach(on, none, [t]).tasks == Dispatched(on, none, "m", [t]).tasks + [];
  }

  // ------------------------------------------------------------ each handler once

  /** No handler is registered twice for a message. */
  ghost predicate Distinct(list: seq<Entry>) {
    forall i, j :: 0 <= i < j < |list| ==> list[i].id != list[j].id
  }

  lemma {:induction false} LiveMembers(list: seq<Entry>, alive: set<nat>)
    ensures forall e :: e in Live(list, alive) <==> e in list && e.id in alive
  {
    if list != [] {
      LiveMembers(list[1..], alive);
      assert list == [list[0]] + list[1..];
    }
  }

  lemma {:induction false} LiveDistinct(list: seq<Entry>, alive: set<nat>)
    requires Distinct(list)
    ensures Distinct(Live(list, alive))
  {
    if list != [] {
      LiveDistinct(list[1..], alive);
      LiveMembers(list[1..], alive);
      var live, rest := Live(list, alive), Live(list[1..], alive);
      forall i, j | 0 <= i < j < |live| ensures live[i].id != live[j].id {
        if list[0].id in alive {
          assert live[j] == rest[j - 1] && rest[j - 1] in list[1..];
          assert i > 0 ==> live[i] == rest[i - 1];
        }
      }
    }
  }

  /** So a message reaches each live handler exactly once, and no other. */
  lemma TargetsOnce<W>(bus: Bus<W>, msgid: string)
    requires Distinct(Listed(bus, msgid))
    ensures forall h :: h in Targets(bus, msgid) <==> h in bus.alive && exists e :: e in Listed(bus, msgid) && e.id == h
    ensures forall i, j :: 0 <= i < j < |Targets(bus, msgid)| ==> Targets(bus, msgid)[i] != Targets(bus, msgid)[j]
  {
    var list := Listed(bus, msgid);
    var live := Live(list, bus.alive);
    LiveMembers(list, bus.alive);
    LiveDistinct(list, bus.alive);
    forall h | h in bus.alive && exists e :: e in list && e.id == h ensures h in Ids(live) {
      var e :| e in list && e.id == h;
      assert e in live;
      var i :| 0 <= i < |live| && live[i] == e;
      assert Ids(live)[i] == h;
    }
    forall h | h in Ids(live) ensures h in bus.alive && exists e :: e in list && e.id == h {
      var i :| 0 <= i < |live| && Ids(live)[i] == h;
      assert live[i] in live;
    }
  }

  /** Where the live entry number `i` stands in the list. */
  lemma {:induction false} LivePlace(list: seq<Entry>, alive: set<nat>, i: nat, j: nat) returns (p: nat, q: nat)
    requires i < j < |Live(list, alive)|
    ensures p < q < |list| && list[p] == Live(list, alive)[i] && list[q] == Live(list, alive)[j]
  {
    var live, rest := Live(list, alive), Live(list[1..], alive);
    if list[0].id !in alive {
      p, q := LivePlace(list[1..], alive, i, j);
      p, q := p + 1, q + 1;
    } else if i > 0 {
      assert live[i] == rest[i - 1] && live[j] == rest[j - 1];
      p, q := LivePlace(list[1..], alive, i - 1, j - 1);
      p, q := p + 1, q + 1;
    } else {
      LiveMembers(list[1..], alive);
      assert live[j] == rest[j - 1] && rest[j - 1] in list[1..];
      q :| 0 <= q < |list[1..]| && list[1..][q] == live[j];
      p, q := 0, q + 1;
    }
  }

  /** Handlers are called in the order in which they are registered. */
  lemma TargetsInOrder<W>(bus: Bus<W>, msgid: string, i: nat, j: nat)
    requires i < j < |Targets(bus, msgid)|
    ensures exists p, q :: 0 <= p < q < |Listed(bus, msgid)|
              && Listed(bus, msgid)[p].id == Targets(bus, msgid)[i] && Listed(bus, msgid)[q].id == Targets(bus, msgid)[j]
  {
    var p, q := LivePlace(Listed(bus, msgid), bus.alive, i, j);
  }

  /** The bus after `h` has been registered behind the others. */
  function Registered<W>(bus: Bus<W>, msgid: string, h: nat, busOnly: bool): Bus<W> {
    bus.(registry := bus.registry[msgid := Listed(bus, msgid) + [Entry(h, busOnly)]])
  }

  /** A handler registered later is called later: after all that were there. */
  lemma RegisteredIsLast<W>(bus: Bus<W>, msgid: string, h: nat, busOnly: bool)
    requires h in bus.alive
    ensures Targets(Registered(bus, msgid, h, busOnly), msgid) == Targets(bus, msgid) + [h]
  {
    var list := Listed(bus, msgid);
    AppendLive(list, bus.alive, Entry(h, busOnly));
    assert Listed(Registered(bus, msgid, h, busOnly), msgid) == list + [Entry(h, busOnly)];
  }

  lemma AppendLive(list: seq<Entry>, alive: set<nat>, e: Entry)
    requires e.id in alive
    ensures Ids(Live(list + [e], alive)) == Ids(Live(list, alive)) + [e.id]
  {
    LiveAppend(list, [e], alive);
    assert [e][1..] == [] && Live([e], alive) == [e] + [];
  }

  /** So where every handler goes on and succeeds, the answer is that of the handler
      registered last. */
  lemma LastRegisteredAnswers<W>(on: Behaviour<W>, bus: Bus<W>, msgid: string, h: nat, busOnly: bool, original: Param)
    requires h in bus.alive
    requires var now := Registered(bus, msgid, h, busOnly);
             forall r :: r in Calls(on, now, msgid, Targets(now, msgid), original) ==> r.goOn && r.result
    ensures var now := Registered(bus, msgid, h, busOnly);
            var calls := Calls(on, now, msgid, Targets(now, msgid), original);
            && |calls| == |Targets(bus, msgid)| + 1
            && calls[|calls| - 1] == on(h, if |calls| == 1 then now else calls[|calls| - 2].bus, msgid, original)
            && Handled(on, now, msgid, Targets(now, msgid), original, original, false).param == calls[|calls| - 1].param
  {
    var now := Registered(bus, msgid, h, busOnly);
    var hs := Targets(now, msgid);
    var calls := Calls(on, now, msgid, hs, original);
    RegisteredIsLast(bus, msgid, h, busOnly);
    CallsMean(on, now, msgid, hs, original, |hs| - 1);
    assert calls != [];
    assert calls[|calls| - 1] in calls;
    HandledMeans(on, now, msgid, hs, original, original, false);
    assert LastTrue(calls, |calls| - 1);
  }

  /** Purging drops the dead entries of that message, keeps the order of the others,
      and drops the message itself once nothing is left. */
  lemma PurgedMeans<W>(bus: Bus<W>, msgid: string, m: string)
    ensures var now := Purged(bus, msgid);
            && now.world == bus.world && now.alive == bus.alive
            && Targets(now, m) == Targets(bus, m)
            && (m != msgid ==> (m in now.registry <==> m in bus.registry) && Listed(now, m) == Listed(bus, m))
            && (forall e :: e in Listed(now, msgid) <==> e in Listed(bus, msgid) && e.id in bus.alive)
            && (msgid in now.registry <==> exists e :: e in Listed(bus, msgid) && e.id in bus.alive)
  {
    var list := Listed(bus, msgid);
    LiveMembers(list, bus.alive);
    LiveTwice(list, bus.alive);
    var live := Live(list, bus.alive);
    if live != [] {
      assert live[0] in live;
    }
    assert Listed(Purged(bus, msgid), msgid) == live;
  }

  // ------------------------------------------------------------ the code

  predicate BusOnly(list: seq<Entry>) {
    exists i :: 0 <= i < |list| && list[i].busOnly
  }

  lemma {:induction false} LiveAppend(a: seq<Entry>, b: seq<Entry>, alive: set<nat>)
    ensures Live(a + b, alive) == Live(a, alive) + Live(b, alive)
  {
    if a == [] {
      assert a + b == b;
    } else {
      assert (a + b)[0] == a[0] && (a + b)[1..] == a[1..] + b;
      LiveAppend(a[1..], b, alive);
      Assoc(if a[0].id in alive then [a[0]] else [], Live(a[1..], alive), Live(b, alive));
    }
  }

  /** A list of which only the first `j` entries have been purged. */
  function PartlyPurged(list: seq<Entry>, alive: set<nat>, j: nat): seq<Entry>
    requires j <= |list|
  {
    Live(list[..j], alive) + list[j..]
  }

  lemma PartlyPurgedLive(list: seq<Entry>, alive: set<nat>, j: nat)
    requires j <= |list|
    ensures Live(PartlyPurged(list, alive, j), alive) == Live(list, alive)
  {
    LiveAppend(Live(list[..j], alive), list[j..], alive);
    LiveTwice(list[..j], alive);
    LiveAppend(list[..j], list[j..], alive);
    assert list[..j] + list[j..] == list;
  }

  lemma PartlyPurgedDistinct(list: seq<Entry>, alive: set<nat>, j: nat)
    requires j <= |list| && Distinct(list)
    ensures Distinct(PartlyPurged(list, alive, j))
  {
    LiveDistinct(list[..j], alive);
    LiveMembers(list[..j], alive);
    var front, back := Live(list[..j], alive), list[j..];
    forall i, k | 0 <= i < |front| && 0 <= k < |back| ensures front[i].id != back[k].id {
      assert front[i] in list[..j];
    }
  }

  /** The loops over a message's weak references: live ones are locked, dead ones
      erased; a caller outside the bus thread stops at the first handler that is
      reserved to it, dead or alive. */
  method LockHandlers(weak: seq<Entry>, alive: set<nat>, inBusThread: bool)
    returns (direct: bool, hs: seq<nat>, left: seq<Entry>)
    ensures direct <==> inBusThread || !BusOnly(weak)
    ensures direct ==> left == Live(weak, alive) && hs == Ids(left)
    ensures Live(left, alive) == Live(weak, alive)
    ensures Distinct(weak) ==> Distinct(left)
  {
    direct, hs, left := true, [], weak;
    var i := 0;
    ghost var j := 0;
    while i < |left|
      invariant i <= |left| && j <= |weak| && |left| - i == |weak| - j
      invariant left[..i] == Live(weak[..j], alive) && left[i..] == weak[j..]
      invariant hs == Ids(left[..i])
      invariant inBusThread || !BusOnly(weak[..j])
      decreases |left| - i
    {
      assert left[i] == left[i..][0] == weak[j];
      if !inBusThread && left[i].busOnly {
        direct := false;
        break;
      }
      NextEntry(weak, alive, j);
      if left[i].id in alive {
        hs := hs + [left[i].id];
        assert left[..i + 1] == left[..i] + [left[i]];
        i := i + 1;
      } else {
        left := left[..i] + left[i + 1..];
      }
      j := j + 1;
    }
    assert left == left[..i] + left[i..];
    PartlyPurgedLive(weak, alive, j);
    if Distinct(weak) { PartlyPurgedDistinct(weak, alive, j); }
    if direct {
      assert weak[..j] == weak && left[..i] == left;
    }
  }

  lemma NextEntry(list: seq<Entry>, alive: set<nat>, j: nat)
    requires j < |list|
    ensures Live(list[..j + 1], alive) == Live(list[..j], alive) + (if list[j].id in alive then [list[j]] else [])
    ensures BusOnly(list[..j + 1]) <==> BusOnly(list[..j]) || list[j].busOnly
    ensures list[j].busOnly ==> BusOnly(list)
  {
    assert list[..j + 1] == list[..j] + [list[j]];
    LiveAppend(list[..j], [list[j]], alive);
    assert [list[j]][1..] == [] && Live([], alive) == [];
    assert Live([list[j]], alive) == (if list[j].id in alive then [list[j]] else []) + [];
    if BusOnly(list[..j]) {
      var i :| 0 <= i < j && list[..j][i].busOnly;
      assert list[..j + 1][i].busOnly;
    }
    assert list[..j + 1][j] == list[j];
  }

  /** What a caller's own thread gets from `SendMsg`: an answer, or the message is
      left to the bus thread. */
  datatype Sent = Answered(param: Param, ret: bool) | LeftToBus

  class Dispatcher<W> {
    var bus: Bus<W>

    constructor (world: W, alive: set<nat>)
      ensures bus == Bus(world, map[], alive) && Valid()
    {
      bus := Bus(world, map[], alive);
    }

    /** No handler is registered twice for a message. */
    ghost predicate Valid()
      reads this
    {
      forall m: string :: Distinct(Listed(bus, m))
    }

    /** The block under `s_msghandlers_locker`. */
    method FindHandlers(msgid: string, inBusThread: bool) returns (direct: bool, hs: seq<nat>)
      requires Valid()
      modifies this
      ensures Valid() && bus.world == old(bus.world) && bus.alive == old(bus.alive)
      ensures direct <==> inBusThread || !BusOnly(Listed(old(bus), msgid))
      ensures direct ==> hs == Targets(old(bus), msgid) && bus == Purged(old(bus), msgid)
      ensures Targets(bus, msgid) == Targets(old(bus), msgid)
      ensures forall m: string :: m != msgid ==> Listed(bus, m) == Listed(old(bus), m)
    {
      direct, hs := true, [];
      if msgid in bus.registry {
        var weak := bus.registry[msgid];
        assert Distinct(Listed(bus, msgid));
        var left;
        direct, hs, left := LockHandlers(weak, bus.alive, inBusThread);
        if left == [] {
          bus := bus.(registry := bus.registry - {msgid});
        } else {
          bus := bus.(registry := bus.registry[msgid := left]);
        }
        assert Listed(bus, msgid) == left;
        forall m: string ensures Distinct(Listed(bus, m)) {
          assert m != msgid ==> Listed(bus, m) == Listed(old(bus), m);
        }
      }
    }

    /** `ExecuteMsgBusHandlers`. */
    method ExecuteHandlers(on: Behaviour<W>, msgid: string, alltasks: array<Task>, hs: seq<nat>)
      modifies this, alltasks
      ensures var e := ExecuteAll(on, old(bus), msgid, hs, old(alltasks[..]));
              bus == e.bus && alltasks[..] == e.tasks
    {
      var i := 0;
      ghost var all := ExecuteAll(on, bus, msgid, hs, alltasks[..]);
      ghost var later := all;
      while i < alltasks.Length
        invariant 0 <= i <= alltasks.Length
        invariant later == ExecuteAll(on, bus, msgid, hs, alltasks[i..])
        invariant all.bus == later.bus && all.tasks == alltasks[..i] + later.tasks
      {
        var t := alltasks[i];
        ghost var rest := alltasks[i..];
        assert rest[0] == t && rest[1..] == alltasks[i + 1..];
        var param, result := Execute(on, msgid, t.param, hs);
        alltasks[i] := t.(param := param, ret := result);
        ghost var after := ExecuteAll(on, bus, msgid, hs, rest[1..]);
        assert later == Executed(after.bus, [alltasks[i]] + after.tasks);
        assert alltasks[..i + 1] == alltasks[..i] + [alltasks[i]];
        Assoc(alltasks[..i], [alltasks[i]], after.tasks);
        later := after;
        i := i + 1;
      }
      assert alltasks[i..] == [];
      assert alltasks[..i] == alltasks[..];
    }

    /** Its inner loop, for one task. */
    method Execute(on: Behaviour<W>, msgid: string, original: Param, hs: seq<nat>) returns (param: Param, result: bool)
      modifies this
      ensures Done(bus, param, result) == Handled(on, old(bus), msgid, hs, original, original, false)
    {
      param, result := original, false;
      var goOn := true;
      var hit := hs;
      while hit != []
        invariant Handled(on, bus, msgid, hit, original, param, result) ==
                  Handled(on, old(bus), msgid, hs, original, original, false)
        decreases |hit|
      {
        var r := on(hit[0], bus, msgid, original);
        bus := r.bus;
        result := r.result;
        if result {
          param := r.param;
        }
        if !r.goOn {
          return;
        }
        hit := hit[1..];
      }
    }

    /** `SendMsg` up to the point where it leaves a message to the bus thread; in the
        bus thread it never does. Either way an answer is what the bus thread itself
        would have given, and the registry ends up the same. */
    method SendMsg(on: Behaviour<W>, msgid: string, param: Param, caller: nat, inBusThread: bool) returns (r: Sent)
      requires Valid()
      modifies this
      ensures r.LeftToBus? <==> !inBusThread && BusOnly(Listed(old(bus), msgid))
      ensures r.Answered? ==>
                var e := Dispatched(on, old(bus), msgid, [Task(msgid, param, caller, false)]);
                |e.tasks| == 1 && bus == e.bus && r == Answered(e.tasks[0].param, e.tasks[0].ret)
      ensures r.LeftToBus? ==> bus.world == old(bus.world) && Targets(bus, msgid) == Targets(old(bus), msgid)
    {
      var t := Task(msgid, param, caller, false);
      var direct, hs := FindHandlers(msgid, inBusThread);
      if direct {
        OneTask(on, bus, msgid, hs, t);
        var out, result := Execute(on, msgid, param, hs);
        r := Answered(out, result);
      } else {
        r := LeftToBus;
      }
    }

    /** `RegisterMsg` of a live handler: added at the end, unless it is there. */
    method RegisterMsg(msgid: string, handler: nat, busOnly: bool)
      requires Valid() && handler in bus.alive
      modifies this
      ensures Valid() && bus.world == old(bus.world) && bus.alive == old(bus.alive)
      ensures forall m: string :: m != msgid ==> Listed(bus, m) == Listed(old(bus), m)
      ensures Listed(bus, msgid) ==
              if handler in Ids(Listed(old(bus), msgid)) then Listed(old(bus), msgid)
              else Listed(old(bus), msgid) + [Entry(handler, busOnly)]
      ensures handler !in Ids(Listed(old(bus), msgid)) ==> Targets(bus, msgid) == Targets(old(bus), msgid) + [handler]
    {
      var list := if msgid in bus.registry then bus.registry[msgid] else [];
      var i := 0;
      while i < |list| && !(list[i].id in bus.alive && list[i].id == handler)
        invariant 0 <= i <= |list|
        invariant forall k :: 0 <= k < i ==> list[k].id != handler
      {
        i := i + 1;
      }
      if i == |list| {
        AppendLive(list, bus.alive, Entry(handler, busOnly));
        bus := bus.(registry := bus.registry[msgid := list + [Entry(handler, busOnly)]]);
        assert handler !in Ids(list);
        assert Distinct(Listed(old(bus), msgid));
        assert Distinct(Listed(bus, msgid));
        forall m: string ensures Distinct(Listed(bus, m)) {
          assert m != msgid ==> Listed(bus, m) == Listed(old(bus), m);
        }
      } else {
        assert Ids(list)[i] == handler;
      }
    }

    /** `UnRegisterMsg`: the first entry whose reference locks to that pointer is erased.
        A dead reference locks to null, so a null pointer erases the first dead entry. */
    method UnRegisterMsg(msgid: string, handler: Option<nat>)
      requires Valid()
      modifies this
      ensures Valid() && bus.world == old(bus.world) && bus.alive == old(bus.alive)
      ensures forall m: string :: m != msgid ==> Listed(bus, m) == Listed(old(bus), m)
      ensures var was, now := Listed(old(bus), msgid), Listed(bus, msgid);
              if exists e :: e in was && LocksTo(e, bus.alive) == handler
              then exists i :: FirstLocking(was, bus.alive, handler, i) && now == was[..i] + was[i + 1..]
              else now == was
      ensures handler.Some? && handler.value in bus.alive ==>
                forall e :: e in Listed(bus, msgid) <==> e in Listed(old(bus), msgid) && e.id != handler.value
    {
      if msgid in bus.registry {
        var list := bus.registry[msgid];
        assert Distinct(Listed(bus, msgid));
        var i := 0;
        while i < |list| && LocksTo(list[i], bus.alive) != handler
          invariant 0 <= i <= |list|
          invariant forall k :: 0 <= k < i ==> LocksTo(list[k], bus.alive) != handler
        {
          i := i + 1;
        }
        if i < |list| {
          bus := bus.(registry := bus.registry[msgid := list[..i] + list[i + 1..]]);
          Without(list, i);
          assert list[i] in list && FirstLocking(list, bus.alive, handler, i);
        }
        forall m: string ensures Distinct(Listed(bus, m)) {
          assert m != msgid ==> Listed(bus, m) == Listed(old(bus), m);
        }
      }
    }
  }

  /** What a weak reference locks to: its handler, or null once that is gone. */
  function LocksTo(e: Entry, alive: set<nat>): Option<nat> {
    if e.id in alive then Some(e.id) else None
  }

  predicate FirstLocking(list: seq<Entry>, alive: set<nat>, handler: Option<nat>, i: int) {
    0 <= i < |list| && LocksTo(list[i], alive) == handler && forall k :: 0 <= k < i ==> LocksTo(list[k], alive) != handler
  }

  lemma Without(list: seq<Entry>, i: nat)
    requires i < |list| && Distinct(list)
    ensures Distinct(list[..i] + list[i + 1..])
    ensures forall e :: e in list[..i] + list[i + 1..] <==> e in list && e.id != list[i].id
  {
    var left := list[..i] + list[i + 1..];
    forall e | e in list && e.id != list[i].id ensures e in left {
      var k :| 0 <= k < |list| && list[k] == e;
      assert left[if k < i then k else k - 1] == e;
    }
    forall e | e in left ensures e in list && e.id != list[i].id {
      var k :| 0 <= k < |left| && left[k] == e;
      assert e == list[if k < i then k else k + 1];
    }
  }
}
