/** A run in which a request overtakes another one to the same client
    (Core/NetMsgBusReq2ReceiverMgr.hpp), for every client. */
module Overtaking {
  import opened Requests

  /** What one client's requests look like: their lists, and where its worker, the
      handler and the cache stand. */
  datatype View = View(queue: seq<Task>, dispatch: seq<Task>, worker: seq<Task>, running: seq<Task>,
                       waiting: seq<Task>, handling: seq<Task>, sent: seq<Task>,
                       phase: Option<Phase>, handler: Handler, cached: Option<Host>, asked: nat, posted: nat)

  function Seen(s: State, n: string): View {
    var w := WorkerOf(n);
    View(At(s.lists, Queue), At(s.lists, Dispatch), At(s.lists, Worker(w)), At(s.lists, Running(w)),
         At(s.lists, Waiting(n)), At(s.lists, Handling), At(s.lists, Sent),
         if w in s.phases then Some(s.phases[w]) else None, s.handler,
         if n in s.cache then Some(s.cache[n]) else None, s.lookups[n], s.posted)
  }

  lemma SeenPost(s: State, n: string, h: Host)
    ensures var v := Seen(s, n);
            Seen(Next(s, Post(n, h)), n) == v.(queue := v.queue + [NewTask(v.posted, n, h)], posted := v.posted + 1)
  {
  }

  /** From the queue to the worker, when nothing else is on its way. */
  lemma SeenHanded(s: State, n: string, t: Task)
    requires Seen(s, n).queue == [t] && Seen(s, n).dispatch == [] && t.name == n
    ensures var v := Seen(s, n);
            Seen(Next(Next(s, SwapQueue), Hand), n) == v.(queue := [], dispatch := [], worker := v.worker + [t])
  {
    var s1 := Next(s, SwapQueue);
    var w := WorkerOf(n);
    assert At(s1.lists, Dispatch) == [t] && At(s1.lists, Queue) == [];
    assert ChangeOf(s1, Hand) == Move(Dispatch, Worker(w), t);
  }

  lemma SeenStart(s: State, n: string, t: Task)
    requires Seen(s, n).worker == [t] && Seen(s, n).running == [] && Seen(s, n).phase == None
    ensures var w := WorkerOf(n);
            Seen(Next(s, Start(w)), n) == Seen(s, n).(worker := [], running := [t.(runs := t.runs + 1)], phase := Some(Fresh))
  {
  }

  lemma SeenMiss(s: State, n: string, t: Task)
    requires n != "" && Seen(s, n).running == [t] && t.name == n && t.retry
    requires Seen(s, n).phase == Some(Fresh) && Seen(s, n).cached == None
    ensures Seen(Next(s, CheckCache(WorkerOf(n))), n) == Seen(s, n).(phase := Some(Miss))
  {
  }

  lemma SeenHit(s: State, n: string, t: Task)
    requires n != "" && Seen(s, n).running == [t] && t.name == n
    requires Seen(s, n).phase == Some(Fresh) && Seen(s, n).cached.Some?
    ensures Seen(Next(s, CheckCache(WorkerOf(n))), n) == Seen(s, n).(phase := Some(Connect(Seen(s, n).cached.value)))
  {
  }

  lemma SeenSent(s: State, n: string, t: Task)
    requires Seen(s, n).running == [t] && Seen(s, n).phase.Some? && Seen(s, n).phase.value.Connect?
    ensures var v := Seen(s, n);
            Seen(Next(s, Deliver(WorkerOf(n), Written)), n) == v.(running := [], phase := None, sent := v.sent + [t])
  {
  }

  lemma SeenPark(s: State, n: string, t: Task)
    requires Seen(s, n).running == [t] && t.name == n && Seen(s, n).phase == Some(Miss)
    ensures var v := Seen(s, n);
            Seen(Next(s, Park(WorkerOf(n))), n) ==
            v.(running := [], waiting := v.waiting + [t.(waits := t.waits + 1)], phase := Some(Ask(n)))
  {
  }

  lemma SeenAsk(s: State, n: string)
    requires Seen(s, n).phase == Some(Ask(n)) && s.connected
    ensures var v := Seen(s, n); Seen(Next(s, AskServer(WorkerOf(n), true)), n) == v.(phase := None, asked := v.asked + 1)
  {
  }

  lemma SeenRespond(s: State, n: string, h: Host)
    requires Seen(s, n).handler == Idle && Seen(s, n).asked > 0 && Seen(s, n).handling == []
    ensures var v := Seen(s, n);
            Seen(Next(s, Respond(n, Found(h))), n) ==
            v.(handling := v.waiting, waiting := [], asked := v.asked - 1, handler := Took(n, Found(h)))
  {
  }

  lemma SeenApply(s: State, n: string, h: Host)
    requires Seen(s, n).handler == Took(n, Found(h))
    ensures Seen(Next(s, Apply), n) == Seen(s, n).(cached := Some(h), handler := Requeueing)
  {
  }

  lemma SeenRequeue(s: State, n: string, t: Task)
    requires Seen(s, n).handler == Requeueing && Seen(s, n).handling == [t]
    ensures var v := Seen(s, n);
            Seen(Next(s, Requeue), n) == v.(handling := [], queue := v.queue + [t.(retry := false)])
  {
  }

  /** An honest run: the server connection holds, and the cache is filled by answers. */
  predicate Plain(es: seq<Event>) {
    forall e :: e in es ==> !e.Lose? && !e.Learn? && !e.Reconnect? && (e.AskServer? ==> e.accepted)
  }

  /** A run prolonged by one event. */
  lemma Then(es: seq<Event>, e: Event) returns (more: seq<Event>)
    requires Plain(es) && !e.Lose? && !e.Learn? && !e.Reconnect? && (e.AskServer? ==> e.accepted) && Run(Initial(), es).connected
    ensures more == es + [e] && Plain(more) && Run(Initial(), more) == Next(Run(Initial(), es), e)
    ensures Run(Initial(), more).connected
  {
    more := es + [e];
    RunThen(Initial(), es, e);
  }

  /** A plain run that shows `v` for client `n`. */
  ghost predicate Reaches(es: seq<Event>, n: string, v: View) {
    Plain(es) && Run(Initial(), es).connected && Seen(Run(Initial(), es), n) == v
  }

  lemma DoPost(es: seq<Event>, n: string, v: View, h: Host) returns (more: seq<Event>)
    requires Reaches(es, n, v)
    ensures Reaches(more, n, v.(queue := v.queue + [NewTask(v.posted, n, h)], posted := v.posted + 1))
  {
    SeenPost(Run(Initial(), es), n, h);
    more := Then(es, Post(n, h));
  }

  lemma DoHand(es: seq<Event>, n: string, v: View, t: Task) returns (more: seq<Event>)
    requires Reaches(es, n, v) && v.queue == [t] && v.dispatch == [] && t.name == n
    ensures Reaches(more, n, v.(queue := [], dispatch := [], worker := v.worker + [t]))
  {
    SeenHanded(Run(Initial(), es), n, t);
    more := Then(es, SwapQueue);
    more := Then(more, Hand);
  }

  lemma DoStart(es: seq<Event>, n: string, v: View, t: Task) returns (more: seq<Event>)
    requires Reaches(es, n, v) && v.worker == [t] && v.running == [] && v.phase == None
    ensures Reaches(more, n, v.(worker := [], running := [t.(runs := t.runs + 1)], phase := Some(Fresh)))
  {
    SeenStart(Run(Initial(), es), n, t);
    more := Then(es, Start(WorkerOf(n)));
  }

  lemma DoMiss(es: seq<Event>, n: string, v: View, t: Task) returns (more: seq<Event>)
    requires Reaches(es, n, v) && n != "" && v.running == [t] && t.name == n && t.retry
    requires v.phase == Some(Fresh) && v.cached == None
    ensures Reaches(more, n, v.(phase := Some(Miss)))
  {
    SeenMiss(Run(Initial(), es), n, t);
    more := Then(es, CheckCache(WorkerOf(n)));
  }

  lemma DoPark(es: seq<Event>, n: string, v: View, t: Task) returns (more: seq<Event>)
    requires Reaches(es, n, v) && v.running == [t] && t.name == n && v.phase == Some(Miss)
    ensures Reaches(more, n, v.(running := [], waiting := v.waiting + [t.(waits := t.waits + 1)], phase := Some(Ask(n))))
  {
    SeenPark(Run(Initial(), es), n, t);
    more := Then(es, Park(WorkerOf(n)));
  }

  lemma DoAsk(es: seq<Event>, n: string, v: View) returns (more: seq<Event>)
    requires Reaches(es, n, v) && v.phase == Some(Ask(n))
    ensures Reaches(more, n, v.(phase := None, asked := v.asked + 1))
  {
    SeenAsk(Run(Initial(), es), n);
    more := Then(es, AskServer(WorkerOf(n), true));
  }

  lemma DoAnswer(es: seq<Event>, n: string, v: View, h: Host) returns (more: seq<Event>)
    requires Reaches(es, n, v) && v.handler == Idle && v.asked > 0 && v.handling == []
    ensures Reaches(more, n, v.(handling := v.waiting, waiting := [], asked := v.asked - 1, cached := Some(h), handler := Requeueing))
  {
    SeenRespond(Run(Initial(), es), n, h);
    more := Then(es, Respond(n, Found(h)));
    SeenApply(Run(Initial(), more), n, h);
    more := Then(more, Apply);
  }

  lemma DoRequeue(es: seq<Event>, n: string, v: View, t: Task) returns (more: seq<Event>)
    requires Reaches(es, n, v) && v.handler == Requeueing && v.handling == [t]
    ensures Reaches(more, n, v.(handling := [], queue := v.queue + [t.(retry := false)]))
  {
    SeenRequeue(Run(Initial(), es), n, t);
    more := Then(es, Requeue);
  }

  lemma DoSend(es: seq<Event>, n: string, v: View, t: Task) returns (more: seq<Event>)
    requires Reaches(es, n, v) && n != "" && v.running == [t] && t.name == n && v.phase == Some(Fresh) && v.cached.Some?
    ensures Reaches(more, n, v.(running := [], phase := None, sent := v.sent + [t]))
  {
    SeenHit(Run(Initial(), es), n, t);
    more := Then(es, CheckCache(WorkerOf(n)));
    SeenSent(Run(Initial(), more), n, t);
    more := Then(more, Deliver(WorkerOf(n), Written));
  }

  const NOTHING: View := View([], [], [], [], [], [], [], None, Idle, None, 0, 0)

  /** The first request to `n` finds no address and is parked. */
  lemma FirstParks(n: string, h: Host, first: Task) returns (es: seq<Event>)
    requires n != "" && first == NewTask(0, n, h)
    ensures Reaches(es, n, NOTHING.(waiting := [first.(runs := 1, waits := 1)], asked := 1, posted := 1))
  {
    var v := NOTHING.(posted := 1);
    assert Run(Initial(), []) == Initial();
    es := DoPost([], n, NOTHING, h);
    es := DoHand(es, n, v.(queue := [first]), first);
    es := StartAndPark(es, n, v, first);
  }

  lemma StartAndPark(es: seq<Event>, n: string, v: View, t: Task) returns (more: seq<Event>)
    requires n != "" && t.name == n && t.retry && v.worker == [] && v.running == [] && v.phase == None && v.cached == None
    requires Reaches(es, n, v.(worker := [t]))
    ensures Reaches(more, n, v.(waiting := v.waiting + [t.(runs := t.runs + 1, waits := t.waits + 1)], asked := v.asked + 1))
  {
    var begun := t.(runs := t.runs + 1);
    more := DoStart(es, n, v.(worker := [t]), t);
    more := DoMiss(more, n, v.(running := [begun], phase := Some(Fresh)), begun);
    more := DoPark(more, n, v.(running := [begun], phase := Some(Miss)), begun);
    more := DoAsk(more, n, v.(waiting := v.waiting + [begun.(waits := t.waits + 1)], phase := Some(Ask(n))));
  }

  /** The second reaches the worker; only then the answer brings the first back. */
  lemma SecondHanded(es: seq<Event>, n: string, h: Host, parked: Task, second: Task) returns (more: seq<Event>)
    requires second == NewTask(1, n, h)
    requires Reaches(es, n, NOTHING.(waiting := [parked], asked := 1, posted := 1))
    ensures Reaches(more, n, NOTHING.(worker := [second], queue := [parked.(retry := false)], cached := Some(h),
                                      handler := Requeueing, posted := 2))
  {
    var v := NOTHING.(waiting := [parked], asked := 1);
    more := DoPost(es, n, v.(posted := 1), h);
    v := v.(posted := 2);
    more := DoHand(more, n, v.(queue := [second]), second);
    more := DoAnswer(more, n, v.(worker := [second]), h);
    v := NOTHING.(worker := [second], cached := Some(h), handler := Requeueing, posted := 2);
    more := DoRequeue(more, n, v.(handling := [parked]), parked);
  }

  /** Both are sent: first the one with the worker, then the one in the queue. */
  lemma BothSent(es: seq<Event>, n: string, h: Host, one: Task, two: Task) returns (more: seq<Event>)
    requires n != "" && one.name == n == two.name
    requires Reaches(es, n, NOTHING.(worker := [one], queue := [two], cached := Some(h), handler := Requeueing, posted := 2))
    ensures Reaches(more, n, NOTHING.(sent := [one.(runs := one.runs + 1), two.(runs := two.runs + 1)], cached := Some(h),
                                      handler := Requeueing, posted := 2))
  {
    var v := NOTHING.(cached := Some(h), handler := Requeueing, posted := 2);
    var a, b := one.(runs := one.runs + 1), two.(runs := two.runs + 1);
    more := DoStart(es, n, v.(worker := [one], queue := [two]), one);
    more := DoSend(more, n, v.(running := [a], phase := Some(Fresh), queue := [two]), a);
    v := v.(sent := [a]);
    more := DoHand(more, n, v.(queue := [two]), two);
    more := DoStart(more, n, v.(worker := [two]), two);
    more := DoSend(more, n, v.(running := [b], phase := Some(Fresh)), b);
  }

  /** For every client there is a run, with the server connected throughout, in which
      its second request is sent before its first: the first was parked, and the second
      reached the worker before the answer brought the first back to the queue. */
  lemma Overtaken(n: string, h: Host) returns (es: seq<Event>)
    requires n != ""
    ensures Plain(es)
    ensures var sent := At(Run(Initial(), es).lists, Sent);
            && |sent| == 2 && sent[0].name == n == sent[1].name
            && sent[0].id == 1 && sent[1].id == 0 && sent[0].waits == 0 && sent[1].waits == 1
  {
    var first, second := NewTask(0, n, h), NewTask(1, n, h);
    var parked := first.(runs := 1, waits := 1);
    es := FirstParks(n, h, first);
    es := SecondHanded(es, n, h, parked, second);
    es := BothSent(es, n, h, second, parked.(retry := false));
  }
}
