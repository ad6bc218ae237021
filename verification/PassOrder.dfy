/** The exact order in which requests to one client are sent
    (Core/NetMsgBusReq2ReceiverMgr.hpp): that of the passes they were sent in, a pass
    being one entry of a request into the queue. */
module PassOrder {
  import opened Requests
  import opened RequestOrder

  // ------------------------------------------------------------ the log of passes

  /** Where a pass stands in the log; its length if it is not there. */
  function IndexOf(log: seq<Task>, p: Pass): (k: nat)
    ensures k <= |log|
  {
    if log == [] || PassOf(log[0]) == p then 0 else 1 + IndexOf(log[1..], p)
  }

  predicate Logged(log: seq<Task>, p: Pass) { IndexOf(log, p) < |log| }

  lemma {:induction false} IndexAppend(log: seq<Task>, t: Task, p: Pass)
    ensures IndexOf(log + [t], p) ==
            if Logged(log, p) then IndexOf(log, p) else if PassOf(t) == p then |log| else |log| + 1
  {
    var all := log + [t];
    if log == [] {
      assert all[1..] == [];
    } else {
      assert all[0] == log[0] && all[1..] == log[1..] + [t];
      IndexAppend(log[1..], t, p);
    }
  }

  lemma {:induction false} LoggedIs(log: seq<Task>, p: Pass)
    ensures Logged(log, p) ==> PassOf(log[IndexOf(log, p)]) == p
  {
    if log != [] && PassOf(log[0]) != p {
      LoggedIs(log[1..], p);
    }
  }

  // ------------------------------------------------------------ what is logged

  /** Places between the queue and the connection, from the far end. */
  function Place(l: Label): int {
    match l
    case Sent => 0
    case Running(_) => 1
    case Worker(_) => 2
    case Dispatch => 3
    case Queue => 4
    case _ => -1
  }

  /** What is true of a request and the log, wherever it is: on its way its pass is
      logged, and its second pass is logged only once it is in it. */
  ghost predicate LogFits(log: seq<Task>, l: Label, t: Task) {
    && (Place(l) >= 0 ==> Logged(log, PassOf(t)))
    && (Logged(log, Pass(t.id, 1)) ==> t.waits == 1 && !l.Waiting? && !l.Handling?)
  }

  ghost predicate AllLogFit(s: State) {
    forall l: Label, i: nat :: i < |At(s.lists, l)| ==> LogFits(s.enqueued, l, At(s.lists, l)[i])
  }

  /** Only posted requests are logged, and their first passes in the order of posting. */
  ghost predicate LogFine(s: State) {
    && (forall k :: 0 <= k < |s.enqueued| ==> s.enqueued[k].id < s.posted)
    && (forall x: nat, y: nat :: x < y < s.posted ==>
          IndexOf(s.enqueued, Pass(x, 0)) < IndexOf(s.enqueued, Pass(y, 0)))
    && (forall x: nat :: x < s.posted ==> Logged(s.enqueued, Pass(x, 0)))
  }

  predicate Enters(c: Change) { c.Add? || (c.Move? && c.to == Queue) }

  lemma NotLogged(s: State, p: Pass)
    requires LogFine(s) && p.id >= s.posted
    ensures !Logged(s.enqueued, p)
  {
    LoggedIs(s.enqueued, p);
  }

  lemma EnqueuedAfter(s: State, e: Event)
    requires Enabled(s, e)
    ensures var c := ChangeOf(s, e);
            Next(s, e).enqueued == if Enters(c) then s.enqueued + [c.task] else s.enqueued
  {
  }

  /** What enters the queue is a new request, or one from the handler's list. */
  lemma EntersFrom(s: State, e: Event)
    requires Enabled(s, e) && Enters(ChangeOf(s, e))
    ensures var c := ChangeOf(s, e);
            || (e.Post? && c.Add? && PassOf(c.task) == Pass(s.posted, 0))
            || (e.Requeue? && c.Move? && c.from == Handling && At(s.lists, Handling) != []
                && PassOf(c.task) == PassOf(At(s.lists, Handling)[0]))
  {
  }

  /** A pass that enters the queue is new. */
  lemma FreshPass(s: State, e: Event)
    requires LogFine(s) && AllLogFit(s) && AllFine(s.lists) && Enabled(s, e) && Enters(ChangeOf(s, e))
    ensures !Logged(s.enqueued, PassOf(ChangeOf(s, e).task))
  {
    EntersFrom(s, e);
    if e.Post? {
      NotLogged(s, Pass(s.posted, 0));
    } else {
      var t := At(s.lists, Handling)[0];
      assert Fine(Handling, t) && LogFits(s.enqueued, Handling, t);
    }
  }

  lemma NextLogFine(s: State, e: Event)
    requires LogFine(s) && AllLogFit(s) && Once(s.lists, s.posted) && AllFine(s.lists) && Enabled(s, e)
    ensures LogFine(Next(s, e))
  {
    var after, c := Next(s, e), ChangeOf(s, e);
    EnqueuedAfter(s, e);
    if Enters(c) {
      EntersFrom(s, e);
      FreshPass(s, e);
      if e.Requeue? {
        assert Holds(s.lists, Handling, 0, c.task.id);
      }
      forall x: nat | x < after.posted
        ensures Logged(after.enqueued, Pass(x, 0))
        ensures IndexOf(after.enqueued, Pass(x, 0)) == if x < s.posted then IndexOf(s.enqueued, Pass(x, 0)) else |s.enqueued|
      {
        IndexAppend(s.enqueued, c.task, Pass(x, 0));
      }
    }
  }

  /** Which label a request can have been under. */
  lemma FitsBefore(s: State, e: Event, l: Label, i: nat)
    requires WorkersFine(s) && AllFine(s.lists) && AllLogFit(s) && Once(s.lists, s.posted) && Enabled(s, e)
    requires i < |At(Changed(s.lists, ChangeOf(s, e)), l)|
    requires !(Enters(ChangeOf(s, e)) && l == Queue && i == |At(s.lists, Queue)|)
    ensures LogFits(s.enqueued, l, At(Changed(s.lists, ChangeOf(s, e)), l)[i])
  {
    var c := ChangeOf(s, e);
    var p := Before(s.lists, c, l, i);
    NextConserves(s, e);
    NextAdvances(true, s, e);
    if c.Add? {
      assert At(Changed(s.lists, c), l)[i] == At(s.lists, l)[i];
      assert LogFits(s.enqueued, l, At(s.lists, l)[i]);
    } else {
      WasAt(true, s.lists, s.posted, c, l, i);
      assert LogFits(s.enqueued, p.0, At(s.lists, p.0)[p.1]);
      assert Fine(p.0, At(s.lists, p.0)[p.1]);
      if p.0 != l {
        MovesFit(s, e);
      }
    }
  }

  /** A step keeps the pass of what it moves on, and parks only first passes. */
  lemma MovesFit(s: State, e: Event)
    requires WorkersFine(s) && AllFine(s.lists) && Enabled(s, e)
    ensures var c := ChangeOf(s, e);
            && (c.Move? ==> var head := At(s.lists, c.from)[0];
                  && (Place(c.to) >= 0 && c.to != Queue ==> PassOf(c.task) == PassOf(head) && Place(c.from) == Place(c.to) + 1)
                  && (!c.to.Waiting? ==> c.task.waits == head.waits)
                  && !c.to.Handling? && (c.to.Waiting? ==> head.waits == 0))
            && (c.MoveAll? ==> (c.from == Queue && c.to == Dispatch) || (c.from.Waiting? && c.to == Handling))
  {
    if e.Park? {
      assert WorkerFine(s, e.worker) && Fine(Running(e.worker), At(s.lists, Running(e.worker))[0]);
    }
  }

  lemma NextLogFits(s: State, e: Event, l: Label, i: nat)
    requires WorkersFine(s) && AllFine(s.lists) && AllLogFit(s) && LogFine(s) && Once(s.lists, s.posted) && Enabled(s, e)
    requires i < |At(Next(s, e).lists, l)|
    ensures LogFits(Next(s, e).enqueued, l, At(Next(s, e).lists, l)[i])
  {
    var c, after := ChangeOf(s, e), Next(s, e);
    var t := At(after.lists, l)[i];
    EnqueuedAfter(s, e);
    if !Enters(c) {
      FitsBefore(s, e, l, i);
    } else {
      EntersFrom(s, e);
      FreshPass(s, e);
      IndexAppend(s.enqueued, c.task, PassOf(t));
      IndexAppend(s.enqueued, c.task, Pass(t.id, 1));
      if l == Queue && i == |At(s.lists, Queue)| {
        EnteredFits(s, e);
      } else {
        FitsBefore(s, e, l, i);
        OtherIds(s, e, l, i);
      }
    }
  }

  /** What has just entered the queue. */
  lemma EnteredFits(s: State, e: Event)
    requires LogFine(s) && AllFine(s.lists) && AllLogFit(s) && Enabled(s, e) && Enters(ChangeOf(s, e))
    ensures var t := ChangeOf(s, e).task; LogFits(s.enqueued + [t], Queue, t)
    ensures var c, n := ChangeOf(s, e), |At(s.lists, Queue)|;
            n < |At(Next(s, e).lists, Queue)| && At(Next(s, e).lists, Queue)[n] == c.task
  {
    var t := ChangeOf(s, e).task;
    EntersFrom(s, e);
    FreshPass(s, e);
    IndexAppend(s.enqueued, t, PassOf(t));
    IndexAppend(s.enqueued, t, Pass(t.id, 1));
    if e.Post? {
      NotLogged(s, Pass(s.posted, 1));
    } else {
      assert Fine(Handling, At(s.lists, Handling)[0]);
    }
  }

  /** Nobody else has the id of what enters the queue. */
  lemma OtherIds(s: State, e: Event, l: Label, i: nat)
    requires Once(s.lists, s.posted) && Enabled(s, e) && Enters(ChangeOf(s, e)) && (s.handler == Idle ==> At(s.lists, Handling) == [])
    requires i < |At(Next(s, e).lists, l)| && !(l == Queue && i == |At(s.lists, Queue)|)
    ensures At(Next(s, e).lists, l)[i].id != ChangeOf(s, e).task.id
  {
    var c, after := ChangeOf(s, e), Next(s, e).lists;
    NextOnce(s, e);
    var n := |At(s.lists, Queue)|;
    assert Holds(after, Queue, n, c.task.id);
    assert Holds(after, l, i, At(after, l)[i].id);
  }

  // ------------------------------------------------------------ one line per worker

  ghost predicate AheadOf(lists: Lists, l: Label, i: nat, m: Label, j: nat) {
    0 <= Place(l) && 0 <= Place(m) && (Place(l) < Place(m) || (l == m && i < j))
  }

  /** Of two requests on their way through one worker, the one ahead is in the earlier pass. */
  ghost predicate InPassOrder(s: State) {
    forall l: Label, i: nat, m: Label, j: nat ::
      i < |At(s.lists, l)| && j < |At(s.lists, m)| && AheadOf(s.lists, l, i, m, j)
      && WorkerOf(At(s.lists, l)[i].name) == WorkerOf(At(s.lists, m)[j].name) ==>
        IndexOf(s.enqueued, PassOf(At(s.lists, l)[i])) < IndexOf(s.enqueued, PassOf(At(s.lists, m)[j]))
  }

  /** Requests of one worker in places of one rank are in one list. */
  lemma SamePlaceSameList(l: Label, t: Task, m: Label, u: Task)
    requires AtHome(l, t) && AtHome(m, u) && WorkerOf(t.name) == WorkerOf(u.name) && Place(l) == Place(m) >= 0
    ensures l == m
  {
  }

  /** A change that keeps passes, and moves requests one place on or off the way. */
  ghost predicate Onward(lists: Lists, c: Change) {
    match c
    case Move(from, to, t) =>
      && At(lists, from) != [] && from != to && t.name == At(lists, from)[0].name
      && (Place(to) >= 0 && to != Queue ==> PassOf(t) == PassOf(At(lists, from)[0]) && Place(from) == Place(to) + 1)
    case MoveAll(from, to) =>
      && At(lists, to) == [] && ((from == Queue && to == Dispatch) || (from.Waiting? && to == Handling))
    case _ => true
  }

  lemma NextOnward(s: State, e: Event)
    requires WorkersFine(s) && AllFine(s.lists) && Enabled(s, e)
    ensures Onward(s.lists, ChangeOf(s, e))
  {
    MovesFit(s, e);
    NextAdvances(true, s, e);
  }

  /** Where a request on its way was before: in the same place or in the one behind it. */
  lemma PlaceBefore(lists: Lists, c: Change, l: Label, i: nat)
    requires Onward(lists, c) && !c.Add? && i < |At(Changed(lists, c), l)| && Place(l) >= 0
    requires Enters(c) ==> !(l == Queue && i == |At(lists, Queue)|)
    ensures var p, t := Before(lists, c, l, i), At(Changed(lists, c), l)[i];
            && p.1 < |At(lists, p.0)|
            && PassOf(At(lists, p.0)[p.1]) == PassOf(t) && At(lists, p.0)[p.1].name == t.name
            && Place(p.0) == if p.0 == l then Place(l) else Place(l) + 1
  {
  }

  /** Two requests that have not just entered the queue were in this order before. */
  lemma AheadBefore(lists: Lists, c: Change, l: Label, i: nat, m: Label, j: nat)
    requires Onward(lists, c) && AllAtHome(lists) && !c.Add?
    requires var after := Changed(lists, c);
             && i < |At(after, l)| && j < |At(after, m)| && AheadOf(after, l, i, m, j)
             && WorkerOf(At(after, l)[i].name) == WorkerOf(At(after, m)[j].name)
    requires Enters(c) ==> !(l == Queue && i == |At(lists, Queue)|) && !(m == Queue && j == |At(lists, Queue)|)
    ensures var p, q := Before(lists, c, l, i), Before(lists, c, m, j);
            p.1 < |At(lists, p.0)| && q.1 < |At(lists, q.0)| && AheadOf(lists, p.0, p.1, q.0, q.1)
  {
    var p, q := Before(lists, c, l, i), Before(lists, c, m, j);
    PlaceBefore(lists, c, l, i);
    PlaceBefore(lists, c, m, j);
    var t, u := At(lists, p.0)[p.1], At(lists, q.0)[q.1];
    assert AtHome(p.0, t) && AtHome(q.0, u);
    if Place(p.0) == Place(q.0) {
      SamePlaceSameList(p.0, t, q.0, u);
    }
  }

  /** The request that enters the queue is behind all others, in the latest pass. */
  lemma BehindAll(s: State, e: Event, l: Label, i: nat)
    requires WorkersFine(s) && AllFine(s.lists) && AllLogFit(s) && LogFine(s) && Once(s.lists, s.posted) && Enabled(s, e)
    requires Enters(ChangeOf(s, e)) && i < |At(Next(s, e).lists, l)| && Place(l) >= 0 && !(l == Queue && i == |At(s.lists, Queue)|)
    ensures var t := At(Next(s, e).lists, l)[i]; var log := Next(s, e).enqueued;
            IndexOf(log, PassOf(t)) == IndexOf(s.enqueued, PassOf(t)) < |s.enqueued| == IndexOf(log, PassOf(ChangeOf(s, e).task))
  {
    var c, t := ChangeOf(s, e), At(Next(s, e).lists, l)[i];
    EnqueuedAfter(s, e);
    FreshPass(s, e);
    FitsBefore(s, e, l, i);
    IndexAppend(s.enqueued, c.task, PassOf(t));
    IndexAppend(s.enqueued, c.task, PassOf(c.task));
  }

  lemma PairBefore(s: State, e: Event, l: Label, i: nat, m: Label, j: nat)
    requires InPassOrder(s) && WorkersFine(s) && AllFine(s.lists) && AllAtHome(s.lists) && Enabled(s, e)
    requires var after := Changed(s.lists, ChangeOf(s, e));
             && i < |At(after, l)| && j < |At(after, m)| && AheadOf(after, l, i, m, j)
             && WorkerOf(At(after, l)[i].name) == WorkerOf(At(after, m)[j].name)
    requires Enters(ChangeOf(s, e)) ==> !(l == Queue && i == |At(s.lists, Queue)|) && !(m == Queue && j == |At(s.lists, Queue)|)
    ensures var after := Changed(s.lists, ChangeOf(s, e));
            IndexOf(s.enqueued, PassOf(At(after, l)[i])) < IndexOf(s.enqueued, PassOf(At(after, m)[j]))
  {
    var c := ChangeOf(s, e);
    if c.Add? {
      assert At(Changed(s.lists, c), l)[i] == At(s.lists, l)[i] && At(Changed(s.lists, c), m)[j] == At(s.lists, m)[j];
      assert AheadOf(s.lists, l, i, m, j);
    } else {
      NextOnward(s, e);
      PlaceBefore(s.lists, c, l, i);
      PlaceBefore(s.lists, c, m, j);
      AheadBefore(s.lists, c, l, i, m, j);
    }
  }

  ghost predicate Inv(s: State) {
    && WorkersFine(s) && AllFine(s.lists) && Once(s.lists, s.posted) && AllAtHome(s.lists)
    && LogFine(s) && AllLogFit(s) && InPassOrder(s)
  }

  lemma NextInPassOrder(s: State, e: Event)
    requires Inv(s) && Enabled(s, e)
    ensures InPassOrder(Next(s, e))
  {
    var c, after := ChangeOf(s, e), Next(s, e);
    EnqueuedAfter(s, e);
    var end := |At(s.lists, Queue)|;
    forall l: Label, i: nat, m: Label, j: nat |
      i < |At(after.lists, l)| && j < |At(after.lists, m)| && AheadOf(after.lists, l, i, m, j)
      && WorkerOf(At(after.lists, l)[i].name) == WorkerOf(At(after.lists, m)[j].name)
      ensures IndexOf(after.enqueued, PassOf(At(after.lists, l)[i])) < IndexOf(after.enqueued, PassOf(At(after.lists, m)[j]))
    {
      if Enters(c) {
        EnteredFits(s, e);
        EnteredIsLast(s, e);
        BehindAll(s, e, l, i);
        if !(m == Queue && j == end) {
          BehindAll(s, e, m, j);
          PairBefore(s, e, l, i, m, j);
        }
      } else {
        PairBefore(s, e, l, i, m, j);
      }
    }
  }

  lemma EnteredIsLast(s: State, e: Event)
    requires Enabled(s, e) && Enters(ChangeOf(s, e))
    ensures |At(Next(s, e).lists, Queue)| == |At(s.lists, Queue)| + 1
  {
    EntersFrom(s, e);
  }

  lemma NextInv(s: State, e: Event)
    requires Inv(s)
    ensures Inv(Next(s, e))
  {
    NextFine(s, e);
    NextOnce(s, e);
    if Enabled(s, e) {
      NextChangeAtHome(s, e);
      ChangeKeepsHome(s.lists, ChangeOf(s, e));
      NextLogFine(s, e);
      forall l: Label, i: nat | i < |At(Next(s, e).lists, l)| ensures LogFits(Next(s, e).enqueued, l, At(Next(s, e).lists, l)[i]) {
        NextLogFits(s, e, l, i);
      }
      NextInPassOrder(s, e);
    }
  }

  lemma {:induction false} RunInv(s: State, es: seq<Event>)
    requires Inv(s)
    ensures Inv(Run(s, es))
    decreases |es|
  {
    if es != [] {
      NextInv(s, es[0]);
      RunInv(Next(s, es[0]), es[1..]);
    }
  }

  // ------------------------------------------------------------ whole runs

  /** In every run the requests of one worker are sent exactly in the order of the passes
      they are sent in. */
  lemma SentByPasses(es: seq<Event>, i: nat, j: nat)
    requires var sent := At(Run(Initial(), es).lists, Sent);
             i < |sent| && j < |sent| && i != j && WorkerOf(sent[i].name) == WorkerOf(sent[j].name)
    ensures var s := Run(Initial(), es); var sent := At(s.lists, Sent);
            i < j <==> IndexOf(s.enqueued, PassOf(sent[i])) < IndexOf(s.enqueued, PassOf(sent[j]))
  {
    RunInv(Initial(), es);
    var s := Run(Initial(), es);
    if i < j {
      assert AheadOf(s.lists, Sent, i, Sent, j);
    } else {
      assert AheadOf(s.lists, Sent, j, Sent, i);
    }
  }

  /** Exactly when a request is overtaken: of two requests sent to one client, the one
      posted later is sent first if and only if its pass lies between the two passes of
      the other. */
  lemma OvertakingExact(es: seq<Event>, i: nat, j: nat)
    requires var sent := At(Run(Initial(), es).lists, Sent);
             i < |sent| && j < |sent| && sent[i].name == sent[j].name && sent[i].id < sent[j].id
    ensures var s := Run(Initial(), es); var a, b := At(s.lists, Sent)[i], At(s.lists, Sent)[j];
            j < i <==> a.waits == 1 && b.waits == 0 &&
                       IndexOf(s.enqueued, Pass(a.id, 0)) < IndexOf(s.enqueued, Pass(b.id, 0)) < IndexOf(s.enqueued, Pass(a.id, 1))
  {
    var s := Run(Initial(), es);
    var a, b := At(s.lists, Sent)[i], At(s.lists, Sent)[j];
    SentByPasses(es, j, i);
    if j < i {
      OvertakenOnlyWhenParked(es, j, i);
      RunInv(Initial(), es);
      assert Holds(s.lists, Sent, j, b.id);
    }
  }
}
