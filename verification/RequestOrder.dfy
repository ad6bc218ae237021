/** Which requests to one client can overtake which (Core/NetMsgBusReq2ReceiverMgr.hpp).

    A request moves through its places in one direction. Seen from the far end these
    places form a line; as long as every step moves the head of one place to the tail
    of the place before it, nothing in the line is overtaken. There are two lines: one
    through parking and the second pass, and one straight to the connection. */
module RequestOrder {
  import opened Requests

  // ------------------------------------------------------------ where a name's requests are

  /** Workers hold requests of their own names, waiting lists those of one name. */
  predicate AtHome(l: Label, t: Task) {
    match l
    case Worker(w) => WorkerOf(t.name) == w
    case Running(w) => WorkerOf(t.name) == w
    case Waiting(n) => t.name == n
    case _ => true
  }

  ghost predicate AllAtHome(lists: Lists) {
    forall l: Label, i: nat :: i < |At(lists, l)| ==> AtHome(l, At(lists, l)[i])
  }

  ghost predicate ChangeAtHome(lists: Lists, c: Change) {
    match c
    case Move(from, to, t) => At(lists, from) != [] && from != to && AtHome(to, t)
    case MoveAll(from, to) => to == Dispatch || to == Handling
    case _ => true
  }

  lemma ChangeKeepsHome(lists: Lists, c: Change)
    requires AllAtHome(lists) && ChangeAtHome(lists, c)
    ensures AllAtHome(Changed(lists, c))
  {
    var after := Changed(lists, c);
    forall l: Label, i: nat | i < |At(after, l)| ensures AtHome(l, At(after, l)[i]) {
      HomeAfter(lists, c, l, i);
    }
  }

  lemma HomeAfter(lists: Lists, c: Change, l: Label, i: nat)
    requires AllAtHome(lists) && ChangeAtHome(lists, c) && i < |At(Changed(lists, c), l)|
    ensures AtHome(l, At(Changed(lists, c), l)[i])
  {
    var t := At(Changed(lists, c), l)[i];
    if !Touches(c, l) {
      Untouched(lists, c, l);
      assert t == At(lists, l)[i];
    } else if c.Move? {
      if l == c.from {
        assert t == At(lists, l)[i + 1];
      } else if i < |At(lists, l)| {
        assert t == At(lists, l)[i];
      } else {
        assert t == c.task;
      }
    }
  }

  lemma NextChangeAtHome(s: State, e: Event)
    requires AllAtHome(s.lists) && Enabled(s, e)
    ensures ChangeAtHome(s.lists, ChangeOf(s, e))
  {
    if e.Start? {
      assert AtHome(Worker(e.worker), At(s.lists, Worker(e.worker))[0]);
    }
  }

  // ------------------------------------------------------------ the lines

  /** The place in a line, 0 at the far end; -1 for places that are not in it. */
  function Rank(parked: bool, l: Label, waits: nat): int {
    if waits == 0 then
      match l
      case Running(_) => 7
      case Worker(_) => 8
      case Dispatch => 9
      case Queue => 10
      case Sent => if parked then -1 else 6
      case _ => -1
    else if parked && waits == 1 then
      match l
      case Sent => 0
      case Running(_) => 1
      case Worker(_) => 2
      case Dispatch => 3
      case Queue => 4
      case Handling => 5
      case Waiting(_) => 6
      case Failed => -1
    else -1
  }

  ghost predicate Ahead(parked: bool, lists: Lists, l: Label, i: nat, m: Label, j: nat)
    requires i < |At(lists, l)| && j < |At(lists, m)|
  {
    var a, b := Rank(parked, l, At(lists, l)[i].waits), Rank(parked, m, At(lists, m)[j].waits);
    0 <= a && 0 <= b && (a < b || (a == b && l == m && i < j))
  }

  /** Of two requests to one client, the one ahead was posted first. */
  ghost predicate Lined(parked: bool, lists: Lists) {
    forall l: Label, i: nat, m: Label, j: nat ::
      i < |At(lists, l)| && j < |At(lists, m)| && At(lists, l)[i].name == At(lists, m)[j].name
      && Ahead(parked, lists, l, i, m, j) ==>
        At(lists, l)[i].id < At(lists, m)[j].id
  }

  /** Two requests to one client with one rank are in one list. */
  lemma OneList(parked: bool, l: Label, t: Task, m: Label, u: Task)
    requires AtHome(l, t) && AtHome(m, u) && t.name == u.name
    requires Rank(parked, l, t.waits) == Rank(parked, m, u.waits) >= 0
    ensures l == m
  {
  }

  /** A change that moves requests one place on, or out of the line. */
  ghost predicate Advances(parked: bool, lists: Lists, posted: nat, c: Change) {
    match c
    case Keep => true
    case Add(t) => t.id == posted && t.waits == 0
    case Move(from, to, t) =>
      && At(lists, from) != [] && from != to
      && var head := At(lists, from)[0];
         && t.id == head.id && t.name == head.name
         && (Rank(parked, to, t.waits) == -1 || Rank(parked, to, t.waits) == Rank(parked, from, head.waits) - 1)
    case MoveAll(from, to) =>
      && from != to && At(lists, to) == []
      && forall k: nat :: Rank(parked, to, k) == -1 || Rank(parked, to, k) == Rank(parked, from, k) - 1
  }

  /** Where the request now at (l, i) was: the same request, to the same client. */
  lemma WasAt(parked: bool, lists: Lists, posted: nat, c: Change, l: Label, i: nat)
    requires Advances(parked, lists, posted, c) && !c.Add? && i < |At(Changed(lists, c), l)|
    ensures var p, t := Before(lists, c, l, i), At(Changed(lists, c), l)[i];
            && p.1 < |At(lists, p.0)|
            && var u := At(lists, p.0)[p.1];
               && u.id == t.id && u.name == t.name
               && (p == (l, i) || (c.Move? && p.0 == c.from == l && p.1 == i + 1) || c.MoveAll? ==> u == t)
               && (c.Move? && l == c.to && p == (c.from, 0) ==> t == c.task)
  {
  }

  /** Where the moved request and the others stand, before and after. */
  lemma RankBefore(parked: bool, lists: Lists, posted: nat, c: Change, l: Label, i: nat)
    requires Advances(parked, lists, posted, c) && !c.Add? && i < |At(Changed(lists, c), l)|
    requires Rank(parked, l, At(Changed(lists, c), l)[i].waits) >= 0
    ensures var p := Before(lists, c, l, i);
            && p.1 < |At(lists, p.0)|
            && var after, before := Rank(parked, l, At(Changed(lists, c), l)[i].waits), Rank(parked, p.0, At(lists, p.0)[p.1].waits);
               before == if p.0 == l then after else after + 1
  {
    WasAt(parked, lists, posted, c, l, i);
  }

  lemma MoveKeepsAhead(parked: bool, lists: Lists, posted: nat, c: Change, l: Label, i: nat, m: Label, j: nat)
    requires c.Move? && Advances(parked, lists, posted, c) && AllAtHome(lists)
    requires var after := Changed(lists, c);
             && i < |At(after, l)| && j < |At(after, m)| && At(after, l)[i].name == At(after, m)[j].name
             && Ahead(parked, after, l, i, m, j)
    ensures var p, q := Before(lists, c, l, i), Before(lists, c, m, j);
            p.1 < |At(lists, p.0)| && q.1 < |At(lists, q.0)| && Ahead(parked, lists, p.0, p.1, q.0, q.1)
  {
    var p, q := Before(lists, c, l, i), Before(lists, c, m, j);
    WasAt(parked, lists, posted, c, l, i);
    WasAt(parked, lists, posted, c, m, j);
    RankBefore(parked, lists, posted, c, l, i);
    RankBefore(parked, lists, posted, c, m, j);
    var t, u := At(lists, p.0)[p.1], At(lists, q.0)[q.1];
    assert AtHome(p.0, t) && AtHome(q.0, u);
    if Rank(parked, p.0, t.waits) == Rank(parked, q.0, u.waits) {
      OneList(parked, p.0, t, q.0, u);
    }
  }

  lemma MoveAllKeepsAhead(parked: bool, lists: Lists, posted: nat, c: Change, l: Label, i: nat, m: Label, j: nat)
    requires c.MoveAll? && Advances(parked, lists, posted, c) && AllAtHome(lists)
    requires var after := Changed(lists, c);
             && i < |At(after, l)| && j < |At(after, m)| && At(after, l)[i].name == At(after, m)[j].name
             && Ahead(parked, after, l, i, m, j)
    ensures var p, q := Before(lists, c, l, i), Before(lists, c, m, j);
            p.1 < |At(lists, p.0)| && q.1 < |At(lists, q.0)| && Ahead(parked, lists, p.0, p.1, q.0, q.1)
  {
    var p, q := Before(lists, c, l, i), Before(lists, c, m, j);
    WasAt(parked, lists, posted, c, l, i);
    WasAt(parked, lists, posted, c, m, j);
    var t, u := At(lists, p.0)[p.1], At(lists, q.0)[q.1];
    assert AtHome(p.0, t) && AtHome(q.0, u);
    assert l != c.from && m != c.from;
    if Rank(parked, p.0, t.waits) == Rank(parked, q.0, u.waits) && Rank(parked, p.0, t.waits) >= 0 {
      OneList(parked, p.0, t, q.0, u);
    }
  }

  /** A new request is behind all others, and the last one posted. */
  lemma AddKeepsLined(parked: bool, lists: Lists, posted: nat, t: Task)
    requires Lined(parked, lists) && Once(lists, posted) && t.id == posted && t.waits == 0
    ensures Lined(parked, Changed(lists, Add(t)))
  {
    var after := Changed(lists, Add(t));
    var end := |At(lists, Queue)|;
    forall l: Label, i: nat, m: Label, j: nat |
      i < |At(after, l)| && j < |At(after, m)| && At(after, l)[i].name == At(after, m)[j].name && Ahead(parked, after, l, i, m, j)
      ensures At(after, l)[i].id < At(after, m)[j].id
    {
      assert !(l == Queue && i == end);
      assert At(after, l)[i] == At(lists, l)[i] && Holds(lists, l, i, At(lists, l)[i].id);
      if m == Queue && j == end {
        assert At(after, m)[j] == t;
      } else {
        assert At(after, m)[j] == At(lists, m)[j] && Ahead(parked, lists, l, i, m, j);
      }
    }
  }

  lemma ChangeKeepsLined(parked: bool, lists: Lists, posted: nat, c: Change)
    requires Lined(parked, lists) && AllAtHome(lists) && Once(lists, posted) && Advances(parked, lists, posted, c)
    ensures Lined(parked, Changed(lists, c))
  {
    var after := Changed(lists, c);
    if c.Add? {
      AddKeepsLined(parked, lists, posted, c.task);
    } else if !c.Keep? {
      forall l: Label, i: nat, m: Label, j: nat |
        i < |At(after, l)| && j < |At(after, m)| && At(after, l)[i].name == At(after, m)[j].name && Ahead(parked, after, l, i, m, j)
        ensures At(after, l)[i].id < At(after, m)[j].id
      {
        WasAt(parked, lists, posted, c, l, i);
        WasAt(parked, lists, posted, c, m, j);
        if c.Move? {
          MoveKeepsAhead(parked, lists, posted, c, l, i, m, j);
        } else {
          MoveAllKeepsAhead(parked, lists, posted, c, l, i, m, j);
        }
      }
    }
  }

  // ------------------------------------------------------------ every step

  /** The steps of a worker. */
  lemma WorkerAdvances(parked: bool, s: State, e: Event, w: string)
    requires WorkerFine(s, w) && AllFine(s.lists) && Enabled(s, e) && ActsOn(e, w)
    ensures Advances(parked, s.lists, s.posted, ChangeOf(s, e))
  {
    if e.Start? {
      assert Fine(Worker(w), At(s.lists, Worker(w))[0]);
    } else if e.CheckCache? || e.Deliver? || e.Park? {
      assert Fine(Running(w), At(s.lists, Running(w))[0]);
    }
  }

  lemma HandlerAdvances(parked: bool, s: State, e: Event)
    requires AllFine(s.lists) && Enabled(s, e) && (e.Requeue? || e.Drop?)
    ensures Advances(parked, s.lists, s.posted, ChangeOf(s, e))
  {
    if At(s.lists, Handling) != [] {
      assert Fine(Handling, At(s.lists, Handling)[0]);
    }
  }

  lemma NextAdvances(parked: bool, s: State, e: Event)
    requires WorkersFine(s) && AllFine(s.lists) && Enabled(s, e)
    ensures Advances(parked, s.lists, s.posted, ChangeOf(s, e))
  {
    if e.Start? || e.CheckCache? || e.Deliver? || e.Park? || e.ForgetHost? || e.AskServer? {
      assert WorkerFine(s, e.worker);
      WorkerAdvances(parked, s, e, e.worker);
    } else if e.Requeue? || e.Drop? {
      HandlerAdvances(parked, s, e);
    } else if e.Hand? {
      assert Fine(Dispatch, At(s.lists, Dispatch)[0]);
    }
  }

  /** A request that went straight out was posted after every parked request that was
      sent before it. */
  ghost predicate ParkedFirst(sent: seq<Task>) {
    forall i, j :: 0 <= i < j < |sent| && sent[i].name == sent[j].name && sent[i].waits == 1 && sent[j].waits == 0 ==>
      sent[i].id < sent[j].id
  }

  lemma NextParkedFirst(s: State, e: Event)
    requires Lined(true, s.lists) && Enabled(s, e) && ParkedFirst(At(s.lists, Sent))
    ensures ParkedFirst(At(Next(s, e).lists, Sent))
  {
    OnlySendsSend(s, e);
    if Sends(s, e) {
      var sent, w := At(s.lists, Sent), e.worker;
      var t := Current(s, w);
      forall i | 0 <= i < |sent| && sent[i].name == t.name && sent[i].waits == 1 && t.waits == 0
        ensures sent[i].id < t.id
      {
        assert Ahead(true, s.lists, Sent, i, Running(w), 0);
      }
    }
  }

  ghost predicate Inv(s: State) {
    && WorkersFine(s) && AllFine(s.lists) && Once(s.lists, s.posted) && AllAtHome(s.lists)
    && Lined(true, s.lists) && Lined(false, s.lists) && ParkedFirst(At(s.lists, Sent))
  }

  lemma NextInv(s: State, e: Event)
    requires Inv(s)
    ensures Inv(Next(s, e))
  {
    NextFine(s, e);
    NextOnce(s, e);
    if Enabled(s, e) {
      var c := ChangeOf(s, e);
      NextChangeAtHome(s, e);
      ChangeKeepsHome(s.lists, c);
      NextAdvances(true, s, e);
      ChangeKeepsLined(true, s.lists, s.posted, c);
      NextAdvances(false, s, e);
      ChangeKeepsLined(false, s.lists, s.posted, c);
      NextParkedFirst(s, e);
    }
  }

  lemma {:induction false} RunInv(s: State, es: seq<Event>)
    requires Inv(s)
    ensures Inv(Run(s, es))
    decreases |es|
  {
    if es != [] {
      NextInv(s, es[0]);
      RunInv(Next(s, es[0]), es[1..]);
    }
  }

  /** In every run requests to one client are sent in the order in which they were
      posted, with one exception: a request that was not parked may pass one that was. */
  lemma OvertakenOnlyWhenParked(es: seq<Event>, i: nat, j: nat)
    requires i < j < |At(Run(Initial(), es).lists, Sent)|
    requires var sent := At(Run(Initial(), es).lists, Sent); sent[i].name == sent[j].name
    ensures var sent := At(Run(Initial(), es).lists, Sent);
            sent[i].id < sent[j].id || (sent[i].waits == 0 && sent[j].waits == 1)
  {
    RunInv(Initial(), es);
    var s := Run(Initial(), es);
    var sent := At(s.lists, Sent);
    assert Fine(Sent, sent[i]) && Fine(Sent, sent[j]);
    if sent[i].waits == 1 && sent[j].waits == 1 {
      assert Ahead(true, s.lists, Sent, i, Sent, j);
    } else if sent[i].waits == 0 && sent[j].waits == 0 {
      assert Ahead(false, s.lists, Sent, i, Sent, j);
    }
  }
}
