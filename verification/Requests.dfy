/** The life of a posted request (Core/NetMsgBusReq2ReceiverMgr.hpp): it waits in
    the queue, is handed to a named worker, and is written to a connection, given
    up, or parked until the server tells where its destination lives; then it is
    queued once more, for the last time.

    Each locked block is one step here, so every interleaving of the poster, the
    dispatcher, the workers and the server's answers is a run. */
module Requests {

  datatype Host = Host(ip: string, port: nat)

  /** `name` is empty for a request addressed by host. `id` tells requests apart;
      `waits` and `runs` count how often it was parked and processed. */
  datatype Task = Task(id: nat, name: string, dest: Host, retry: bool, waits: nat, runs: nat)

  /** Where requests are. `Handling` is the list the answer handler took. */
  datatype Label =
    | Queue
    | Dispatch
    | Worker(worker: string)
    | Running(worker: string)
    | Waiting(name: string)
    | Handling
    | Sent
    | Failed

  type Lists = map<Label, seq<Task>>

  function At(lists: Lists, l: Label): seq<Task> {
    if l in lists then lists[l] else []
  }

  /** How a step changes the lists: a new request enters the queue; the head of one
      list goes to the end of another, changed to `task`; or all of one list goes to
      another. */
  datatype Change = Keep | Add(task: Task) | Move(from: Label, to: Label, task: Task) | MoveAll(from: Label, to: Label)

  function Changed(lists: Lists, c: Change): Lists {
    match c
    case Keep => lists
    case Add(t) => lists[Queue := At(lists, Queue) + [t]]
    case Move(from, to, t) =>
      var source := At(lists, from);
      lists[from := if source == [] then [] else source[1..]][to := At(lists, to) + [t]]
    case MoveAll(from, to) => lists[from := []][to := At(lists, from)]
  }

  predicate Touches(c: Change, l: Label) {
    match c
    case Keep => false
    case Add(_) => l == Queue
    case Move(from, to, _) => l == from || l == to
    case MoveAll(from, to) => l == from || l == to
  }

  lemma Untouched(lists: Lists, c: Change, l: Label)
    requires !Touches(c, l)
    ensures At(Changed(lists, c), l) == At(lists, l)
  {
  }

  // ------------------------------------------------------------ state and steps

  /** What a worker does next with the request it runs; after parking it, the
      worker still owes the server a question. */
  datatype Phase = Fresh | Miss | Connect(host: Host) | Unreachable | Forget(name: string) | Ask(name: string)

  datatype Reply = Found(host: Host) | NotFound

  datatype Handler = Idle | Took(name: string, reply: Reply) | Requeueing | Dropping

  datatype Outcome = Written | NotWritten | NoConnection

  /** `lookups` are the questions the server has not answered, `lost` the names
      whose question could not be asked or was lost with the connection. `enqueued`
      and `started` log what entered the queue and what each worker began. */
  datatype State = State(
    lists: Lists, phases: map<string, Phase>, cache: map<string, Host>, handler: Handler,
    connected: bool, lookups: multiset<string>, lost: set<string>,
    posted: nat, enqueued: seq<Task>, started: map<string, seq<Pass>>)

  function Initial(): State {
    State(map[], map[], map[], Idle, true, multiset{}, {}, 0, [], map[])
  }

  datatype Event =
    | Post(name: string, dest: Host)
    | SwapQueue
    | Hand
    | Start(worker: string)
    | CheckCache(worker: string)
    | Deliver(worker: string, outcome: Outcome)
    | Park(worker: string)
    | ForgetHost(worker: string)
    | AskServer(worker: string, accepted: bool)   // whether the socket took the question
    | Respond(name: string, reply: Reply)
    | Apply
    | Requeue
    | Drop
    | Learn(name: string, host: Host)
    | Lose
    | Reconnect

  /** The worker thread of a client name: its last two characters. */
  function WorkerOf(name: string): string {
    if |name| <= 2 then "byip" else name[|name| - 2..]
  }

  /** A request is queued once when it is posted and once more after it was parked. */
  datatype Pass = Pass(id: nat, waits: nat)

  function PassOf(t: Task): Pass {
    Pass(t.id, t.waits)
  }

  function Begun(s: State, w: string): seq<Pass> {
    if w in s.started then s.started[w] else []
  }

  /** A by-name request may be parked once, one by host never. */
  function NewTask(id: nat, name: string, dest: Host): Task {
    Task(id, name, dest, name != "", 0, 0)
  }

  /** The request that worker `w` runs. */
  predicate Busy(s: State, w: string) {
    w in s.phases && At(s.lists, Running(w)) != []
  }

  function Current(s: State, w: string): Task
    requires Busy(s, w)
  {
    At(s.lists, Running(w))[0]
  }

  predicate Enabled(s: State, e: Event) {
    match e
    case SwapQueue => At(s.lists, Dispatch) == []
    case Hand => At(s.lists, Dispatch) != []
    case Start(w) => w !in s.phases && At(s.lists, Worker(w)) != []
    case CheckCache(w) => Busy(s, w) && s.phases[w] == Fresh
    case Deliver(w, _) => Busy(s, w) && s.phases[w].Connect?
    case Park(w) => Busy(s, w) && (s.phases[w] == Miss || s.phases[w] == Unreachable)
    case ForgetHost(w) => w in s.phases && s.phases[w].Forget?
    case AskServer(w, _) => w in s.phases && s.phases[w].Ask?
    case Respond(n, _) => s.handler == Idle && n in s.lookups
    case Apply => s.handler.Took?
    case Requeue => s.handler == Requeueing
    case Drop => s.handler == Dropping
    case _ => true
  }

  /** What becomes of the running request when the cache is consulted, and when a
      connection has been tried: `None` means that it is over. */
  datatype Option<T> = None | Some(value: T)

  function AfterCheck(s: State, t: Task): Option<Phase> {
    if t.name == "" then Some(Connect(t.dest))
    else if t.name in s.cache then Some(Connect(s.cache[t.name]))
    else if t.retry then Some(Miss)
    else None
  }

  function AfterDelivery(t: Task, outcome: Outcome): Option<Phase> {
    if outcome == NoConnection && t.retry then Some(Unreachable) else None
  }

  function ChangeOf(s: State, e: Event): Change
    requires Enabled(s, e)
  {
    match e
    case Post(name, dest) => Add(NewTask(s.posted, name, dest))
    case SwapQueue => MoveAll(Queue, Dispatch)
    case Hand =>
      var t := At(s.lists, Dispatch)[0];
      Move(Dispatch, Worker(WorkerOf(t.name)), t)
    case Start(w) =>
      var t := At(s.lists, Worker(w))[0];
      Move(Worker(w), Running(w), t.(runs := t.runs + 1))
    case CheckCache(w) =>
      if AfterCheck(s, Current(s, w)) != None then Keep else Move(Running(w), Failed, Current(s, w))
    case Deliver(w, outcome) =>
      if AfterDelivery(Current(s, w), outcome) != None then Keep
      else Move(Running(w), if outcome == Written then Sent else Failed, Current(s, w))
    case Park(w) =>
      var t := Current(s, w);
      Move(Running(w), Waiting(t.name), t.(waits := t.waits + 1))
    case Respond(n, _) => MoveAll(Waiting(n), Handling)
    case Requeue =>
      var taken := At(s.lists, Handling);
      if taken == [] then Keep else Move(Handling, Queue, taken[0].(retry := false))
    case Drop =>
      var taken := At(s.lists, Handling);
      if taken == [] then Keep else Move(Handling, Failed, taken[0].(retry := false))
    case _ => Keep
  }

  function PhaseSet(s: State, w: string, p: Option<Phase>): map<string, Phase> {
    if p == None then s.phases - {w} else s.phases[w := p.value]
  }

  function PhasesOf(s: State, e: Event): map<string, Phase>
    requires Enabled(s, e)
  {
    match e
    case Start(w) => s.phases[w := Fresh]
    case CheckCache(w) => PhaseSet(s, w, AfterCheck(s, Current(s, w)))
    case Deliver(w, outcome) => PhaseSet(s, w, AfterDelivery(Current(s, w), outcome))
    case Park(w) =>
      s.phases[w := if s.phases[w] == Miss then Ask(Current(s, w).name) else Forget(Current(s, w).name)]
    case ForgetHost(w) => s.phases[w := Ask(s.phases[w].name)]
    case AskServer(w, _) => s.phases - {w}
    case _ => s.phases
  }

  function CacheOf(s: State, e: Event): map<string, Host>
    requires Enabled(s, e)
  {
    match e
    case ForgetHost(w) => s.cache - {s.phases[w].name}
    case Apply => if s.handler.reply.Found? then s.cache[s.handler.name := s.handler.reply.host] else s.cache
    case Learn(n, host) => s.cache[n := host]
    case _ => s.cache
  }

  function HandlerOf(s: State, e: Event): Handler
    requires Enabled(s, e)
  {
    match e
    case Respond(n, reply) => Took(n, reply)
    case Apply => if s.handler.reply.Found? then Requeueing else Dropping
    case Requeue | Drop => if At(s.lists, Handling) == [] then Idle else s.handler
    case _ => s.handler
  }

  function LookupsOf(s: State, e: Event): multiset<string>
    requires Enabled(s, e)
  {
    match e
    case AskServer(w, ok) => if s.connected && ok then s.lookups + multiset{s.phases[w].name} else s.lookups
    case Respond(n, _) => s.lookups - multiset{n}
    case Lose => multiset{}
    case _ => s.lookups
  }

  function LostOf(s: State, e: Event): set<string>
    requires Enabled(s, e)
  {
    match e
    case AskServer(w, ok) => if s.connected && ok then s.lost - {s.phases[w].name} else s.lost + {s.phases[w].name}
    case Lose => s.lost + (set n | n in s.lookups)
    case _ => s.lost
  }

  function ConnectedOf(s: State, e: Event): bool {
    (s.connected || e.Reconnect?) && !e.Lose?
  }

  function Next(s: State, e: Event): State {
    if !Enabled(s, e) then s
    else
      var c := ChangeOf(s, e);
      State(Changed(s.lists, c), PhasesOf(s, e), CacheOf(s, e), HandlerOf(s, e),
            ConnectedOf(s, e), LookupsOf(s, e), LostOf(s, e),
            if e.Post? then s.posted + 1 else s.posted,
            if c.Add? || (c.Move? && c.to == Queue) then s.enqueued + [c.task] else s.enqueued,
            if e.Start? then s.started[e.worker := Begun(s, e.worker) + [PassOf(At(s.lists, Worker(e.worker))[0])]]
            else s.started)
  }

  function Run(s: State, es: seq<Event>): State
    decreases |es|
  {
    if es == [] then s else Run(Next(s, es[0]), es[1..])
  }

  // ------------------------------------------------------------ each request in one place

  ghost predicate Holds(lists: Lists, l: Label, i: nat, id: nat) {
    i < |At(lists, l)| && At(lists, l)[i].id == id
  }

  ghost predicate Somewhere(lists: Lists, id: nat) {
    exists l: Label, i: nat :: Holds(lists, l, i, id)
  }

  /** Every request below `posted` is in exactly one place, and there are no others. */
  ghost predicate Once(lists: Lists, posted: nat) {
    && (forall id: nat :: id < posted ==> Somewhere(lists, id))
    && (forall l: Label, i: nat, id: nat :: Holds(lists, l, i, id) ==> id < posted)
    && (forall l: Label, i: nat, m: Label, j: nat, id: nat ::
          Holds(lists, l, i, id) && Holds(lists, m, j, id) ==> l == m && i == j)
  }

  /** A change that neither makes nor loses requests, but for new ones. */
  ghost predicate Conserves(lists: Lists, posted: nat, c: Change) {
    match c
    case Keep => true
    case Add(t) => t.id == posted
    case Move(from, to, t) => At(lists, from) != [] && from != to && t.id == At(lists, from)[0].id
    case MoveAll(from, to) => from != to && At(lists, to) == []
  }

  /** Where the request now at (l, i) was before the change. */
  function Before(lists: Lists, c: Change, l: Label, i: nat): (Label, nat) {
    match c
    case Move(from, to, t) =>
      if l == from then (from, i + 1) else if l == to && i == |At(lists, to)| then (from, 0) else (l, i)
    case MoveAll(from, to) => if l == to then (from, i) else (l, i)
    case _ => (l, i)
  }

  lemma HeldBefore(lists: Lists, posted: nat, c: Change, l: Label, i: nat, id: nat)
    requires Conserves(lists, posted, c) && Holds(Changed(lists, c), l, i, id)
    ensures var p := Before(lists, c, l, i);
            || Holds(lists, p.0, p.1, id)
            || (c.Add? && l == Queue && i == |At(lists, Queue)| && id == posted)
  {
  }

  lemma HeldAfter(lists: Lists, posted: nat, c: Change, l: Label, i: nat, id: nat)
    requires Conserves(lists, posted, c) && Holds(lists, l, i, id)
    ensures Somewhere(Changed(lists, c), id)
  {
    var after := Changed(lists, c);
    match c
    case Move(from, to, t) =>
      if l != from {
        assert Holds(after, l, i, id);
      } else if i == 0 {
        assert Holds(after, to, |At(lists, to)|, id);
      } else {
        assert Holds(after, from, i - 1, id);
      }
    case MoveAll(from, to) => assert Holds(after, if l == from then to else l, i, id);
    case _ => assert Holds(after, l, i, id);
  }

  lemma ChangeOnce(lists: Lists, posted: nat, c: Change)
    requires Once(lists, posted) && Conserves(lists, posted, c)
    ensures Once(Changed(lists, c), if c.Add? then posted + 1 else posted)
  {
    var after := Changed(lists, c);
    forall id: nat | id < posted ensures Somewhere(after, id) {
      assert Somewhere(lists, id);
      var l: Label, i: nat :| Holds(lists, l, i, id);
      HeldAfter(lists, posted, c, l, i, id);
    }
    if c.Add? {
      assert Holds(after, Queue, |At(lists, Queue)|, posted);
    }
    forall l: Label, i: nat, id: nat | Holds(after, l, i, id)
      ensures id < posted || (c.Add? && id == posted)
    {
      HeldBefore(lists, posted, c, l, i, id);
    }
    forall l: Label, i: nat, m: Label, j: nat, id: nat | Holds(after, l, i, id) && Holds(after, m, j, id)
      ensures l == m && i == j
    {
      HeldBefore(lists, posted, c, l, i, id);
      HeldBefore(lists, posted, c, m, j, id);
      SamePlace(lists, posted, c, l, i, m, j, id);
    }
  }

  lemma SamePlace(lists: Lists, posted: nat, c: Change, l: Label, i: nat, m: Label, j: nat, id: nat)
    requires Once(lists, posted) && Conserves(lists, posted, c)
    requires Holds(Changed(lists, c), l, i, id) && Holds(Changed(lists, c), m, j, id)
    ensures l == m && i == j
  {
    HeldBefore(lists, posted, c, l, i, id);
    HeldBefore(lists, posted, c, m, j, id);
    if !c.Add? || id != posted {
      var p, q := Before(lists, c, l, i), Before(lists, c, m, j);
      assert Holds(lists, p.0, p.1, id) && Holds(lists, q.0, q.1, id);
      BeforeInjective(lists, posted, c, l, i, m, j);
    }
  }

  lemma BeforeInjective(lists: Lists, posted: nat, c: Change, l: Label, i: nat, m: Label, j: nat)
    requires Conserves(lists, posted, c) && i < |At(Changed(lists, c), l)| && j < |At(Changed(lists, c), m)|
    requires Before(lists, c, l, i) == Before(lists, c, m, j)
    ensures l == m && i == j
  {
  }

  lemma NextConserves(s: State, e: Event)
    requires Enabled(s, e) && (s.handler == Idle ==> At(s.lists, Handling) == [])
    ensures Conserves(s.lists, s.posted, ChangeOf(s, e)) && (ChangeOf(s, e).Add? <==> e.Post?)
  {
  }

  lemma NextOnce(s: State, e: Event)
    requires Once(s.lists, s.posted) && (s.handler == Idle ==> At(s.lists, Handling) == [])
    ensures Once(Next(s, e).lists, Next(s, e).posted)
  {
    if Enabled(s, e) {
      NextConserves(s, e);
      ChangeOnce(s.lists, s.posted, ChangeOf(s, e));
    }
  }

  // ------------------------------------------------------------ at most one wait, two runs

  /** What is true of a request in each place. */
  predicate Fine(l: Label, t: Task) {
    && t.waits <= 1
    && (t.retry ==> t.waits == (if l.Waiting? || l.Handling? then 1 else 0))
    && match l
       case Queue | Dispatch | Worker(_) => t.runs == t.waits
       case Running(_) => t.runs == t.waits + 1
       case Waiting(_) | Handling => t.waits == 1 && t.runs == 1
       case Sent | Failed => t.runs <= 2
  }

  ghost predicate AllFine(lists: Lists) {
    forall l: Label, i: nat :: i < |At(lists, l)| ==> Fine(l, At(lists, l)[i])
  }

  ghost predicate ChangeFine(lists: Lists, c: Change) {
    match c
    case Keep => true
    case Add(t) => Fine(Queue, t)
    case Move(from, to, t) => At(lists, from) != [] && from != to && Fine(to, t)
    case MoveAll(from, to) => forall t :: Fine(from, t) ==> Fine(to, t)
  }

  lemma ChangeKeepsFine(lists: Lists, c: Change)
    requires AllFine(lists) && ChangeFine(lists, c)
    ensures AllFine(Changed(lists, c))
  {
    var after := Changed(lists, c);
    forall l: Label, i: nat | i < |At(after, l)| ensures Fine(l, At(after, l)[i]) {
      var p := Before(lists, c, l, i);
      if p.1 < |At(lists, p.0)| {
        assert Fine(p.0, At(lists, p.0)[p.1]);
      }
    }
  }

  /** A worker runs one request at a time, and parks only one that may retry. */
  ghost predicate WorkerFine(s: State, w: string) {
    if w !in s.phases || s.phases[w].Forget? || s.phases[w].Ask? then At(s.lists, Running(w)) == []
    else
      && |At(s.lists, Running(w))| == 1
      && (s.phases[w] == Miss || s.phases[w] == Unreachable ==> At(s.lists, Running(w))[0].retry)
  }

  ghost predicate WorkersFine(s: State) {
    && (forall w: string :: WorkerFine(s, w))
    && (s.handler == Idle ==> At(s.lists, Handling) == [])
  }

  predicate ActsOn(e: Event, w: string) {
    (e.Start? || e.CheckCache? || e.Deliver? || e.Park? || e.ForgetHost? || e.AskServer?) && e.worker == w
  }

  lemma OtherWorker(s: State, e: Event, w: string)
    requires Enabled(s, e) && !ActsOn(e, w)
    ensures At(Next(s, e).lists, Running(w)) == At(s.lists, Running(w))
  {
    assert !Touches(ChangeOf(s, e), Running(w));
    Untouched(s.lists, ChangeOf(s, e), Running(w));
  }

  lemma OtherPhase(s: State, e: Event, w: string)
    requires Enabled(s, e) && !ActsOn(e, w)
    ensures w in PhasesOf(s, e) <==> w in s.phases
    ensures w in s.phases ==> PhasesOf(s, e)[w] == s.phases[w]
  {
  }

  lemma OwnWorkerFine(s: State, e: Event, w: string)
    requires WorkerFine(s, w) && Enabled(s, e) && ActsOn(e, w)
    ensures WorkerFine(Next(s, e), w)
  {
    var c := ChangeOf(s, e);
    assert c.Keep? || (c.Move? && (c.from == Running(w) || c.to == Running(w)));
    assert At(Changed(s.lists, c), Running(w)) ==
           if c.Keep? then At(s.lists, Running(w)) else if c.from == Running(w) then [] else [c.task];
  }

  lemma NextWorkerFine(s: State, e: Event, w: string)
    requires WorkerFine(s, w)
    ensures WorkerFine(Next(s, e), w)
  {
    if Enabled(s, e) {
      if ActsOn(e, w) {
        OwnWorkerFine(s, e, w);
      } else {
        OtherWorker(s, e, w);
        OtherPhase(s, e, w);
      }
    }
  }

  lemma NextHandlerFine(s: State, e: Event)
    requires s.handler == Idle ==> At(s.lists, Handling) == []
    ensures Next(s, e).handler == Idle ==> At(Next(s, e).lists, Handling) == []
  {
  }

  lemma WorkerChangeFine(s: State, e: Event, w: string)
    requires WorkerFine(s, w) && AllFine(s.lists) && Enabled(s, e) && ActsOn(e, w)
    ensures ChangeFine(s.lists, ChangeOf(s, e))
  {
    if e.Start? {
      assert Fine(Worker(w), At(s.lists, Worker(w))[0]);
    } else if e.CheckCache? || e.Deliver? || e.Park? {
      assert Fine(Running(w), At(s.lists, Running(w))[0]);
    }
  }

  lemma HandlerChangeFine(s: State, e: Event)
    requires AllFine(s.lists) && Enabled(s, e) && (e.Requeue? || e.Drop?)
    ensures ChangeFine(s.lists, ChangeOf(s, e))
  {
    if At(s.lists, Handling) != [] {
      assert Fine(Handling, At(s.lists, Handling)[0]);
    }
  }

  lemma NextChangeFine(s: State, e: Event)
    requires WorkersFine(s) && AllFine(s.lists) && Enabled(s, e)
    ensures ChangeFine(s.lists, ChangeOf(s, e))
  {
    if e.Start? || e.CheckCache? || e.Deliver? || e.Park? || e.ForgetHost? || e.AskServer? {
      assert WorkerFine(s, e.worker);
      WorkerChangeFine(s, e, e.worker);
    } else if e.Requeue? || e.Drop? {
      HandlerChangeFine(s, e);
    } else if e.Hand? {
      assert Fine(Dispatch, At(s.lists, Dispatch)[0]);
    }
  }

  lemma NextFine(s: State, e: Event)
    requires WorkersFine(s) && AllFine(s.lists)
    ensures WorkersFine(Next(s, e)) && AllFine(Next(s, e).lists)
  {
    forall w: string ensures WorkerFine(Next(s, e), w) {
      NextWorkerFine(s, e, w);
    }
    NextHandlerFine(s, e);
    if Enabled(s, e) {
      NextChangeFine(s, e);
      ChangeKeepsFine(s.lists, ChangeOf(s, e));
    }
  }

  // ------------------------------------------------------------ waiting means asked

  ghost predicate AboutToAsk(s: State, n: string) {
    exists w: string :: w in s.phases && (s.phases[w] == Ask(n) || s.phases[w] == Forget(n))
  }

  ghost predicate Covered(s: State, n: string) {
    At(s.lists, Waiting(n)) != [] ==> n in s.lookups || AboutToAsk(s, n) || n in s.lost
  }

  lemma AskKept(s: State, e: Event, n: string, w: string)
    requires w in s.phases && (s.phases[w] == Ask(n) || s.phases[w] == Forget(n))
    ensures AboutToAsk(Next(s, e), n) || n in Next(s, e).lookups || n in Next(s, e).lost
  {
    var after := Next(s, e);
    if Enabled(s, e) {
      if !ActsOn(e, w) {
        OtherPhase(s, e, w);
        assert after.phases[w] == s.phases[w];
      } else if !e.AskServer? {
        assert after.phases[w] == Ask(n);
      }
    }
  }

  lemma LookupKept(s: State, e: Event, n: string)
    requires n in s.lookups
    ensures n in Next(s, e).lookups || n in Next(s, e).lost || At(Next(s, e).lists, Waiting(n)) == []
  {
  }

  lemma LostKept(s: State, e: Event, n: string)
    requires n in s.lost
    ensures n in Next(s, e).lookups || n in Next(s, e).lost
  {
  }

  lemma ParkedIsAsked(s: State, e: Event, n: string)
    requires At(s.lists, Waiting(n)) == [] && At(Next(s, e).lists, Waiting(n)) != []
    ensures AboutToAsk(Next(s, e), n)
  {
    WaitingGrows(s, e, n);
    assert Next(s, e).phases[e.worker] == Ask(n) || Next(s, e).phases[e.worker] == Forget(n);
  }

  lemma WaitingGrows(s: State, e: Event, n: string)
    requires At(s.lists, Waiting(n)) == [] && At(Next(s, e).lists, Waiting(n)) != []
    ensures Enabled(s, e) && e.Park? && Current(s, e.worker).name == n
  {
    assert Enabled(s, e);
    var c := ChangeOf(s, e);
    if !Touches(c, Waiting(n)) { Untouched(s.lists, c, Waiting(n)); }
    assert c.Move? && c.to == Waiting(n);
  }

  lemma NextCovered(s: State, e: Event, n: string)
    requires Covered(s, n)
    ensures Covered(Next(s, e), n)
  {
    if At(Next(s, e).lists, Waiting(n)) != [] {
      if At(s.lists, Waiting(n)) == [] {
        ParkedIsAsked(s, e, n);
      } else if n in s.lookups {
        LookupKept(s, e, n);
      } else if n in s.lost {
        LostKept(s, e, n);
      } else {
        var w: string :| w in s.phases && (s.phases[w] == Ask(n) || s.phases[w] == Forget(n));
        AskKept(s, e, n, w);
      }
    }
  }

  // ------------------------------------------------------------ order

  /** The passes of the requests that belong to worker `w`, in order. */
  function Mine(ts: seq<Task>, w: string): seq<Pass> {
    if ts == [] then []
    else (if WorkerOf(ts[0].name) == w then [PassOf(ts[0])] else []) + Mine(ts[1..], w)
  }

  lemma {:induction false} MineAppend(a: seq<Task>, t: Task, w: string)
    ensures Mine(a + [t], w) == Mine(a, w) + (if WorkerOf(t.name) == w then [PassOf(t)] else [])
  {
    var all := a + [t];
    var last := if WorkerOf(t.name) == w then [PassOf(t)] else [];
    if a == [] {
      assert all[1..] == [];
      assert last + [] == [] + last;
    } else {
      assert all[0] == a[0] && all[1..] == a[1..] + [t];
      MineAppend(a[1..], t, w);
      AppendThree(if WorkerOf(a[0].name) == w then [PassOf(a[0])] else [], Mine(a[1..], w), last);
    }
  }

  lemma AppendThree(a: seq<Pass>, b: seq<Pass>, c: seq<Pass>)
    ensures a + (b + c) == (a + b) + c
  {
  }

  ghost predicate AllMine(ts: seq<Task>, w: string) {
    forall i :: 0 <= i < |ts| ==> WorkerOf(ts[i].name) == w
  }

  /** The requests of worker `w` that entered the queue, in that order: those it has
      begun, its own queue, then the dispatcher's list and the shared queue. */
  ghost predicate InOrder(s: State, w: string) {
    && AllMine(At(s.lists, Worker(w)), w)
    && Begun(s, w) + (Mine(At(s.lists, Worker(w)), w) + (Mine(At(s.lists, Dispatch), w) + Mine(At(s.lists, Queue), w)))
       == Mine(s.enqueued, w)
  }

  lemma Regroup(a: seq<Pass>, b: seq<Pass>, c: seq<Pass>, d: seq<Pass>, x: seq<Pass>)
    ensures (a + (b + (c + d))) + x == a + (b + (c + (d + x)))
    ensures a + (b + ((x + c) + d)) == a + ((b + x) + (c + d))
    ensures a + ((x + b) + (c + d)) == (a + x) + (b + (c + d))
  {
  }

  /** The steps that do not touch what `InOrder` speaks of. */
  lemma OtherInOrder(s: State, e: Event, w: string)
    requires Enabled(s, e) && !e.Post? && !e.Requeue? && !e.SwapQueue? && !e.Hand? && !e.Start?
    ensures var after := Next(s, e);
            && At(after.lists, Worker(w)) == At(s.lists, Worker(w)) && At(after.lists, Dispatch) == At(s.lists, Dispatch)
            && At(after.lists, Queue) == At(s.lists, Queue)
            && after.enqueued == s.enqueued && after.started == s.started
  {
    StaysOut(s, e, Worker(w));
    StaysOut(s, e, Dispatch);
    StaysOut(s, e, Queue);
  }

  lemma StaysOut(s: State, e: Event, l: Label)
    requires Enabled(s, e) && !e.Post? && !e.Requeue? && !e.SwapQueue? && !e.Hand? && !e.Start?
    requires l.Worker? || l.Dispatch? || l.Queue?
    ensures At(Next(s, e).lists, l) == At(s.lists, l)
  {
    assert !Touches(ChangeOf(s, e), l);
    Untouched(s.lists, ChangeOf(s, e), l);
  }

  lemma PostInOrder(s: State, name: string, dest: Host, w: string)
    requires InOrder(s, w)
    ensures InOrder(Next(s, Post(name, dest)), w)
  {
    EnqueueInOrder(s, Next(s, Post(name, dest)), NewTask(s.posted, name, dest), w);
  }

  lemma RequeueLists(s: State, t: Task, w: string)
    requires Enabled(s, Requeue) && At(s.lists, Handling) != [] && t == At(s.lists, Handling)[0].(retry := false)
    ensures var after := Next(s, Requeue);
            && At(after.lists, Worker(w)) == At(s.lists, Worker(w)) && At(after.lists, Dispatch) == At(s.lists, Dispatch)
            && At(after.lists, Queue) == At(s.lists, Queue) + [t] && after.enqueued == s.enqueued + [t] && after.started == s.started
  {
    assert ChangeOf(s, Requeue) == Move(Handling, Queue, t);
  }

  lemma RequeueInOrder(s: State, w: string)
    requires InOrder(s, w) && Enabled(s, Requeue)
    ensures InOrder(Next(s, Requeue), w)
  {
    if At(s.lists, Handling) != [] {
      var t := At(s.lists, Handling)[0].(retry := false);
      RequeueLists(s, t, w);
      EnqueueInOrder(s, Next(s, Requeue), t, w);
    }
  }

  /** A request put at the end of the queue. */
  lemma EnqueueInOrder(s: State, after: State, t: Task, w: string)
    requires InOrder(s, w)
    requires At(after.lists, Worker(w)) == At(s.lists, Worker(w)) && At(after.lists, Dispatch) == At(s.lists, Dispatch)
    requires At(after.lists, Queue) == At(s.lists, Queue) + [t] && after.enqueued == s.enqueued + [t] && after.started == s.started
    ensures InOrder(after, w)
  {
    MineAppend(At(s.lists, Queue), t, w);
    MineAppend(s.enqueued, t, w);
    Regroup(Begun(s, w), Mine(At(s.lists, Worker(w)), w), Mine(At(s.lists, Dispatch), w), Mine(At(s.lists, Queue), w),
            if WorkerOf(t.name) == w then [PassOf(t)] else []);
  }

  lemma SwapInOrder(s: State, w: string)
    requires InOrder(s, w) && Enabled(s, SwapQueue)
    ensures InOrder(Next(s, SwapQueue), w)
  {
    var queue := At(s.lists, Queue);
    var after := Next(s, SwapQueue);
    assert At(after.lists, Worker(w)) == At(s.lists, Worker(w));
    assert At(after.lists, Dispatch) == queue && At(after.lists, Queue) == [];
    assert Mine(queue, w) + Mine([], w) == Mine([], w) + Mine(queue, w);
  }

  lemma HandInOrder(s: State, w: string)
    requires InOrder(s, w) && Enabled(s, Hand)
    ensures InOrder(Next(s, Hand), w)
  {
    HandLists(s, w);
    HandedInOrder(s, Next(s, Hand), At(s.lists, Dispatch)[0], w);
  }

  /** The head of the dispatcher's list goes to its worker. */
  lemma HandedInOrder(s: State, after: State, t: Task, w: string)
    requires InOrder(s, w) && At(s.lists, Dispatch) != [] && t == At(s.lists, Dispatch)[0]
    requires At(after.lists, Dispatch) == At(s.lists, Dispatch)[1..] && At(after.lists, Queue) == At(s.lists, Queue)
    requires At(after.lists, Worker(w)) == At(s.lists, Worker(w)) + (if WorkerOf(t.name) == w then [t] else [])
    requires after.enqueued == s.enqueued && after.started == s.started
    ensures InOrder(after, w)
  {
    var own, list, queue := At(s.lists, Worker(w)), At(s.lists, Dispatch), At(s.lists, Queue);
    if WorkerOf(t.name) == w {
      MineAppend(own, t, w);
      Regroup(Begun(s, w), Mine(own, w), Mine(list[1..], w), Mine(queue, w), [PassOf(t)]);
    } else {
      assert own + [] == own;
      assert Mine(list, w) == Mine(list[1..], w);
    }
  }

  lemma HandLists(s: State, w: string)
    requires Enabled(s, Hand)
    ensures var t, after := At(s.lists, Dispatch)[0], Next(s, Hand);
            && At(after.lists, Dispatch) == At(s.lists, Dispatch)[1..] && At(after.lists, Queue) == At(s.lists, Queue)
            && At(after.lists, Worker(w)) == At(s.lists, Worker(w)) + (if WorkerOf(t.name) == w then [t] else [])
            && after.enqueued == s.enqueued && after.started == s.started
  {
    var t := At(s.lists, Dispatch)[0];
    assert ChangeOf(s, Hand) == Move(Dispatch, Worker(WorkerOf(t.name)), t);
  }

  lemma StartInOrder(s: State, v: string, w: string)
    requires InOrder(s, w) && Enabled(s, Start(v))
    ensures InOrder(Next(s, Start(v)), w)
  {
    var own, list, queue := At(s.lists, Worker(w)), At(s.lists, Dispatch), At(s.lists, Queue);
    var after := Next(s, Start(v));
    assert At(after.lists, Dispatch) == list && At(after.lists, Queue) == queue;
    if v == w {
      assert At(after.lists, Worker(w)) == own[1..];
      Regroup(Begun(s, w), Mine(own[1..], w), Mine(list, w), Mine(queue, w), [PassOf(own[0])]);
      assert Begun(after, w) == Begun(s, w) + [PassOf(own[0])];
    } else {
      assert At(after.lists, Worker(w)) == own && Begun(after, w) == Begun(s, w);
    }
  }

  lemma NextInOrder(s: State, e: Event, w: string)
    requires InOrder(s, w)
    ensures InOrder(Next(s, e), w)
  {
    if Enabled(s, e) {
      match e
      case Post(name, dest) => PostInOrder(s, name, dest, w);
      case Requeue => RequeueInOrder(s, w);
      case SwapQueue => SwapInOrder(s, w);
      case Hand => HandInOrder(s, w);
      case Start(v) => StartInOrder(s, v, w);
      case _ => OtherInOrder(s, e, w);
    }
  }

  // ------------------------------------------------------------ order of what is sent

  /** `a` is `b` with some elements left out. */
  predicate Subsequence(a: seq<Pass>, b: seq<Pass>)
    decreases |b|
  {
    a == [] ||
    (b != [] && (Subsequence(a, b[..|b| - 1]) || (a[|a| - 1] == b[|b| - 1] && Subsequence(a[..|a| - 1], b[..|b| - 1]))))
  }

  lemma SubsequenceGrows(a: seq<Pass>, b: seq<Pass>, x: Pass)
    requires Subsequence(a, b)
    ensures Subsequence(a, b + [x]) && Subsequence(a + [x], b + [x])
  {
    assert (b + [x])[..|b|] == b && (a + [x])[..|a|] == a;
  }

  lemma {:induction false} SubsequenceOfPrefix(a: seq<Pass>, b: seq<Pass>, c: seq<Pass>)
    requires Subsequence(a, b) && b <= c
    ensures Subsequence(a, c)
    decreases |c|
  {
    if |b| == |c| {
      assert b == c;
    } else {
      SubsequenceOfPrefix(a, b, c[..|c| - 1]);
      SubsequenceGrows(a, c[..|c| - 1], c[|c| - 1]);
      assert c == c[..|c| - 1] + [c[|c| - 1]];
    }
  }

  /** What worker `w` has sent is in the order in which it began; what it runs now it
      began last. */
  ghost predicate SentFine(s: State, w: string) {
    var sent, begun, running := Mine(At(s.lists, Sent), w), Begun(s, w), At(s.lists, Running(w));
    && Subsequence(sent, begun)
    && (running != [] ==>
          && WorkerOf(running[0].name) == w
          && begun != [] && begun[|begun| - 1] == PassOf(running[0]) && Subsequence(sent, begun[..|begun| - 1]))
  }

  predicate Sends(s: State, e: Event) {
    Enabled(s, e) && e.Deliver? && e.outcome == Written
  }

  lemma OnlySendsSend(s: State, e: Event)
    requires Enabled(s, e)
    ensures At(Next(s, e).lists, Sent) ==
            if Sends(s, e) then At(s.lists, Sent) + [Current(s, e.worker)] else At(s.lists, Sent)
  {
    var c := ChangeOf(s, e);
    if Sends(s, e) {
      assert c == Move(Running(e.worker), Sent, Current(s, e.worker));
    } else {
      assert !Touches(c, Sent);
      Untouched(s.lists, c, Sent);
    }
  }

  lemma BegunAfter(s: State, e: Event, w: string)
    requires Enabled(s, e)
    ensures Begun(Next(s, e), w) ==
            if e == Start(w) then Begun(s, w) + [PassOf(At(s.lists, Worker(w))[0])] else Begun(s, w)
  {
  }

  lemma RunningAfter(s: State, e: Event, w: string)
    requires Enabled(s, e) && WorkerFine(s, w)
    ensures var before, after := At(s.lists, Running(w)), At(Next(s, e).lists, Running(w));
            if e == Start(w) then
              var t := At(s.lists, Worker(w))[0];
              before == [] && after == [t.(runs := t.runs + 1)]
            else after == before || after == []
  {
    if !ActsOn(e, w) {
      OtherWorker(s, e, w);
    } else if e.Start? {
      StartRuns(s, w);
    } else {
      var c := ChangeOf(s, e);
      assert c.Keep? || (c.Move? && c.from == Running(w) && c.to != Running(w));
    }
  }

  lemma StartRuns(s: State, w: string)
    requires Enabled(s, Start(w)) && WorkerFine(s, w)
    ensures var t := At(s.lists, Worker(w))[0];
            At(s.lists, Running(w)) == [] && At(Next(s, Start(w)).lists, Running(w)) == [t.(runs := t.runs + 1)]
  {
    var t := At(s.lists, Worker(w))[0];
    assert ChangeOf(s, Start(w)) == Move(Worker(w), Running(w), t.(runs := t.runs + 1));
  }

  /** A request of another worker adds nothing to what `w` has sent. */
  lemma SentByOther(s: State, e: Event, w: string)
    requires Sends(s, e) && e.worker != w && SentFine(s, e.worker)
    ensures Mine(At(Next(s, e).lists, Sent), w) == Mine(At(s.lists, Sent), w)
  {
    var t := Current(s, e.worker);
    OnlySendsSend(s, e);
    assert WorkerOf(t.name) == e.worker;
    MineAppend(At(s.lists, Sent), t, w);
    assert Mine(At(s.lists, Sent), w) + [] == Mine(At(s.lists, Sent), w);
  }

  lemma SentByOwn(s: State, e: Event, w: string)
    requires Sends(s, e) && e.worker == w && SentFine(s, w)
    ensures Mine(At(Next(s, e).lists, Sent), w) == Mine(At(s.lists, Sent), w) + [PassOf(Current(s, w))]
    ensures Subsequence(Mine(At(Next(s, e).lists, Sent), w), Begun(s, w))
  {
    var t := Current(s, w);
    OnlySendsSend(s, e);
    MineAppend(At(s.lists, Sent), t, w);
    LastBegun(Mine(At(s.lists, Sent), w), Begun(s, w), PassOf(t));
  }

  lemma LastBegun(sent: seq<Pass>, begun: seq<Pass>, last: Pass)
    requires begun != [] && begun[|begun| - 1] == last && Subsequence(sent, begun[..|begun| - 1])
    ensures Subsequence(sent + [last], begun)
  {
    SubsequenceGrows(sent, begun[..|begun| - 1], last);
    assert begun == begun[..|begun| - 1] + [last];
  }

  lemma SendKeepsSentFine(s: State, e: Event, w: string)
    requires Sends(s, e) && SentFine(s, w) && SentFine(s, e.worker) && WorkerFine(s, w)
    ensures SentFine(Next(s, e), w)
  {
    if e.worker == w {
      OwnSendKeeps(s, e, w);
    } else {
      SentByOther(s, e, w);
      BegunAfter(s, e, w);
      OtherWorker(s, e, w);
    }
  }

  lemma OwnSendKeeps(s: State, e: Event, w: string)
    requires Sends(s, e) && e.worker == w && SentFine(s, w) && WorkerFine(s, w)
    ensures SentFine(Next(s, e), w)
  {
    SentByOwn(s, e, w);
    BegunAfter(s, e, w);
    SentIsDone(s, e, w);
  }

  lemma SentIsDone(s: State, e: Event, w: string)
    requires Sends(s, e) && e.worker == w && WorkerFine(s, w)
    ensures At(Next(s, e).lists, Running(w)) == []
  {
    assert ChangeOf(s, e) == Move(Running(w), Sent, Current(s, w));
  }

  lemma StartKeepsSentFine(s: State, w: string)
    requires Enabled(s, Start(w)) && SentFine(s, w) && InOrder(s, w) && WorkerFine(s, w)
    ensures SentFine(Next(s, Start(w)), w)
  {
    var begun, first := Begun(s, w), At(s.lists, Worker(w))[0];
    OnlySendsSend(s, Start(w));
    BegunAfter(s, Start(w), w);
    RunningAfter(s, Start(w), w);
    SubsequenceGrows(Mine(At(s.lists, Sent), w), begun, PassOf(first));
    assert (begun + [PassOf(first)])[..|begun|] == begun;
  }

  lemma OtherKeepsSentFine(s: State, e: Event, w: string)
    requires Enabled(s, e) && !Sends(s, e) && e != Start(w) && SentFine(s, w) && WorkerFine(s, w)
    ensures SentFine(Next(s, e), w)
  {
    OnlySendsSend(s, e);
    BegunAfter(s, e, w);
    RunningAfter(s, e, w);
  }

  lemma NextSentFine(s: State, e: Event, w: string)
    requires Enabled(s, e) && SentFine(s, w) && InOrder(s, w) && WorkerFine(s, w)
    requires Sends(s, e) ==> SentFine(s, e.worker)
    ensures SentFine(Next(s, e), w)
  {
    if Sends(s, e) {
      SendKeepsSentFine(s, e, w);
    } else if e == Start(w) {
      StartKeepsSentFine(s, w);
    } else {
      OtherKeepsSentFine(s, e, w);
    }
  }

  // ------------------------------------------------------------ whole runs

  lemma {:induction false} RunThen(s: State, es: seq<Event>, e: Event)
    ensures Run(s, es + [e]) == Next(Run(s, es), e)
    decreases |es|
  {
    var all := es + [e];
    if es == [] {
      assert all[1..] == [];
    } else {
      assert all[0] == es[0] && all[1..] == es[1..] + [e];
      RunThen(Next(s, es[0]), es[1..], e);
    }
  }

  lemma {:induction false} RunKeeps(s: State, es: seq<Event>)
    requires WorkersFine(s) && AllFine(s.lists) && Once(s.lists, s.posted)
    ensures var r := Run(s, es); WorkersFine(r) && AllFine(r.lists) && Once(r.lists, r.posted)
    decreases |es|
  {
    if es != [] {
      NextFine(s, es[0]);
      NextOnce(s, es[0]);
      RunKeeps(Next(s, es[0]), es[1..]);
    }
  }

  lemma {:induction false} RunCoveredInOrder(s: State, es: seq<Event>, n: string, w: string)
    requires Covered(s, n) && InOrder(s, w)
    ensures Covered(Run(s, es), n) && InOrder(Run(s, es), w)
    decreases |es|
  {
    if es != [] {
      NextCovered(s, es[0], n);
      NextInOrder(s, es[0], w);
      RunCoveredInOrder(Next(s, es[0]), es[1..], n, w);
    }
  }

  /** In every run every posted request is in exactly one place, was parked at most
      once and processed at most twice. */
  lemma ExactlyOnePlace(es: seq<Event>)
    ensures var s := Run(Initial(), es);
            && (forall id: nat :: id < s.posted <==> Somewhere(s.lists, id))
            && (forall l: Label, i: nat, m: Label, j: nat, id: nat ::
                  Holds(s.lists, l, i, id) && Holds(s.lists, m, j, id) ==> l == m && i == j)
            && (forall l: Label, i: nat :: i < |At(s.lists, l)| ==>
                  At(s.lists, l)[i].waits <= 1 && At(s.lists, l)[i].runs <= 2)
  {
    RunKeeps(Initial(), es);
    var s := Run(Initial(), es);
    forall l: Label, i: nat | i < |At(s.lists, l)|
      ensures At(s.lists, l)[i].waits <= 1 && At(s.lists, l)[i].runs <= 2
    {
      assert Fine(l, At(s.lists, l)[i]);
    }
  }

  /** In every run a parked request has a question in flight or about to be asked,
      unless the connection to the server was down or dropped since. */
  lemma WaitingIsAsked(es: seq<Event>, n: string)
    ensures var s := Run(Initial(), es);
            At(s.lists, Waiting(n)) != [] && n !in s.lost ==> n in s.lookups || AboutToAsk(s, n)
  {
    assert Mine([], "") == [];
    RunCoveredInOrder(Initial(), es, n, "");
  }

  /** The server connection never drops, and its socket takes every question. */
  predicate ServerReachable(es: seq<Event>) {
    forall e :: e in es ==> !e.Lose? && (e.AskServer? ==> e.accepted)
  }

  /** As long as that holds, nothing is lost. */
  lemma {:induction false} NothingLost(s: State, es: seq<Event>)
    requires s.connected && s.lost == {} && ServerReachable(es)
    ensures Run(s, es).connected && Run(s, es).lost == {}
    decreases |es|
  {
    if es != [] {
      assert es[0] in es && forall e :: e in es[1..] ==> e in es;
      NothingLost(Next(s, es[0]), es[1..]);
    }
  }

  lemma WaitingIsAskedWhileConnected(es: seq<Event>, n: string)
    requires ServerReachable(es)
    ensures var s := Run(Initial(), es);
            At(s.lists, Waiting(n)) != [] ==> n in s.lookups || AboutToAsk(s, n)
  {
    NothingLost(Initial(), es);
    WaitingIsAsked(es, n);
  }

  /** In every run a worker begins the requests of its names in the order in which
      they were queued, so requests to one client are not reordered by the pool. */
  lemma WorkersKeepOrder(es: seq<Event>, w: string)
    ensures var s := Run(Initial(), es);
            Begun(s, w) <= Mine(s.enqueued, w)
  {
    assert Mine([], w) == [];
    RunCoveredInOrder(Initial(), es, "", w);
  }

  lemma {:induction false} RunSentFine(s: State, es: seq<Event>)
    requires WorkersFine(s) && AllFine(s.lists) && forall w: string :: SentFine(s, w) && InOrder(s, w)
    ensures forall w: string :: SentFine(Run(s, es), w) && InOrder(Run(s, es), w)
    decreases |es|
  {
    if es != [] {
      var e := es[0];
      forall w: string ensures SentFine(Next(s, e), w) && InOrder(Next(s, e), w) {
        NextInOrder(s, e, w);
        assert WorkerFine(s, w);
        if Enabled(s, e) { NextSentFine(s, e, w); }
      }
      NextFine(s, e);
      RunSentFine(Next(s, e), es[1..]);
    }
  }

  /** In every run what was written for a worker's names was written in the order in
      which its passes entered the queue. A parked request enters it once more, behind
      what was posted meanwhile. */
  lemma SentInOrder(es: seq<Event>, w: string)
    ensures var s := Run(Initial(), es); Subsequence(Mine(At(s.lists, Sent), w), Mine(s.enqueued, w))
  {
    forall v: string ensures SentFine(Initial(), v) && InOrder(Initial(), v) {
      assert Mine([], v) == [];
    }
    RunSentFine(Initial(), es);
    var s := Run(Initial(), es);
    assert SentFine(s, w) && InOrder(s, w);
    SubsequenceOfPrefix(Mine(At(s.lists, Sent), w), Begun(s, w), Mine(s.enqueued, w));
  }

  lemma EndKept(s: State, e: Event, end: Label)
    requires end == Sent || end == Failed
    ensures At(s.lists, end) <= At(Next(s, e).lists, end)
  {
    if Enabled(s, e) {
      var c := ChangeOf(s, e);
      if Touches(c, end) {
        OnlyMovedTo(s, e, end);
        assert At(Changed(s.lists, c), end) == At(s.lists, end) + [c.task];
      } else {
        Untouched(s.lists, c, end);
      }
    }
  }

  lemma OnlyMovedTo(s: State, e: Event, end: Label)
    requires Enabled(s, e) && (end == Sent || end == Failed) && Touches(ChangeOf(s, e), end)
    ensures var c := ChangeOf(s, e); c.Move? && c.to == end && c.from != end
  {
  }

  /** Which steps give a request up: the second time its client is unknown or out of
      reach, a write that fails, or an answer that its client is not known. */
  predicate GivesUp(s: State, e: Event) {
    && Enabled(s, e)
    && match e
       case CheckCache(w) => var t := Current(s, w); t.name != "" && t.name !in s.cache && !t.retry
       case Deliver(w, outcome) => outcome == NotWritten || (outcome == NoConnection && !Current(s, w).retry)
       case Drop => At(s.lists, Handling) != []
       case _ => false
  }

  lemma OnlyGivenUpFail(s: State, e: Event)
    ensures if GivesUp(s, e) then |At(Next(s, e).lists, Failed)| == |At(s.lists, Failed)| + 1
            else At(Next(s, e).lists, Failed) == At(s.lists, Failed)
  {
    if Enabled(s, e) {
      var c := ChangeOf(s, e);
      if GivesUp(s, e) {
        assert c.Move? && c.to == Failed && c.from != Failed;
      } else {
        assert !Touches(c, Failed);
        Untouched(s.lists, c, Failed);
      }
    }
  }

  /** Sent and failed are final. */
  lemma {:induction false} EndsAreFinal(s: State, es: seq<Event>, end: Label)
    requires end == Sent || end == Failed
    ensures At(s.lists, end) <= At(Run(s, es).lists, end)
    decreases |es|
  {
    if es != [] {
      EndKept(s, es[0], end);
      EndsAreFinal(Next(s, es[0]), es[1..], end);
    }
  }

  // ------------------------------------------------------------ the code

  /** The fields that the threads share. `sent` and `failed` stand for what leaves
      the manager: a request written to a connection, a future given up. `workers`
      are the queues of the named threads. */
  datatype Fields = Fields(
    nextid: nat, container: seq<Task>, workers: map<string, seq<Task>>, waiting: map<string, seq<Task>>,
    cached: map<string, Host>, connecting: bool, lookups: multiset<string>, sent: seq<Task>, failed: seq<Task>)

  function Under(m: map<string, seq<Task>>, key: string): seq<Task> {
    if key in m then m[key] else []
  }

  function Pushed(m: map<string, seq<Task>>, key: string, t: Task): map<string, seq<Task>> {
    m[key := Under(m, key) + [t]]
  }

  /** The lists that are fields; the others are local to a thread. */
  predicate Shared(l: Label) {
    !l.Dispatch? && !l.Running? && !l.Handling?
  }

  function Field(f: Fields, l: Label): seq<Task>
    requires Shared(l)
  {
    match l
    case Queue => f.container
    case Worker(w) => Under(f.workers, w)
    case Waiting(n) => Under(f.waiting, n)
    case Sent => f.sent
    case Failed => f.failed
  }

  ghost predicate ShowsLists(f: Fields, lists: Lists) {
    && (forall n: string :: n in f.waiting ==> f.waiting[n] != [])
    && (forall l: Label :: Shared(l) ==> At(lists, l) == Field(f, l))
  }

  ghost predicate Shows(f: Fields, s: State) {
    && ShowsLists(f, s.lists)
    && f.nextid == s.posted && f.cached == s.cache && f.connecting == s.connected && f.lookups == s.lookups
  }

  /** One request added at the end of a list. */
  function Appended(f: Fields, l: Label, t: Task): Fields
    requires Shared(l)
  {
    match l
    case Queue => f.(container := f.container + [t])
    case Worker(w) => f.(workers := Pushed(f.workers, w, t))
    case Waiting(n) => f.(waiting := Pushed(f.waiting, n, t))
    case Sent => f.(sent := f.sent + [t])
    case Failed => f.(failed := f.failed + [t])
  }

  lemma AppendedField(f: Fields, l: Label, t: Task, m: Label)
    requires Shared(l) && Shared(m)
    ensures Field(Appended(f, l, t), m) == if m == l then Field(f, l) + [t] else Field(f, m)
  {
  }

  lemma AppendedShows(f: Fields, lists: Lists, l: Label, t: Task, after: Lists)
    requires ShowsLists(f, lists) && Shared(l)
    requires forall m: Label :: Shared(m) ==> At(after, m) == if m == l then At(lists, m) + [t] else At(lists, m)
    ensures ShowsLists(Appended(f, l, t), after)
  {
    forall m: Label | Shared(m) ensures At(after, m) == Field(Appended(f, l, t), m) {
      AppendedField(f, l, t, m);
    }
  }

  /** A list taken whole. */
  function Emptied(f: Fields, l: Label): Fields {
    match l
    case Queue => f.(container := [])
    case Waiting(n) => f.(waiting := f.waiting - {n})
    case _ => f
  }

  lemma EmptiedShows(f: Fields, lists: Lists, l: Label, after: Lists)
    requires ShowsLists(f, lists) && (l.Queue? || l.Waiting?)
    requires forall m: Label :: Shared(m) ==> At(after, m) == if m == l then [] else At(lists, m)
    ensures ShowsLists(Emptied(f, l), after)
  {
    forall m: Label | Shared(m) ensures At(after, m) == Field(Emptied(f, l), m) {
      assert Field(Emptied(f, l), m) == if m == l then [] else Field(f, m);
    }
  }

  function ChangedFields(f: Fields, c: Change): Fields
    requires Made(c)
  {
    match c
    case Keep => f
    case Add(t) => Appended(f, Queue, t)
    case Move(_, to, t) => Appended(f, to, t)
    case MoveAll(from, _) => Emptied(f, from)
  }

  /** The changes that move requests between a thread and the shared lists. */
  predicate Made(c: Change) {
    match c
    case Keep | Add(_) => true
    case Move(from, to, _) => !Shared(from) && Shared(to)
    case MoveAll(from, to) => (from.Queue? || from.Waiting?) && !Shared(to)
  }

  lemma ChangedShows(f: Fields, lists: Lists, c: Change)
    requires ShowsLists(f, lists) && Made(c)
    ensures ShowsLists(ChangedFields(f, c), Changed(lists, c))
  {
    match c
    case Keep =>
    case Add(t) => AppendedShows(f, lists, Queue, t, Changed(lists, c));
    case Move(from, to, t) => AppendedShows(f, lists, to, t, Changed(lists, c));
    case MoveAll(from, to) => EmptiedShows(f, lists, from, Changed(lists, c));
  }

  /** What a step of the code does to the fields. */
  function Did(f: Fields, s: State, e: Event): Fields
    requires Enabled(s, e) && Made(ChangeOf(s, e))
  {
    WithRest(ChangedFields(f, ChangeOf(s, e)), if e.Post? then f.nextid + 1 else f.nextid,
             CacheOf(s, e), LookupsOf(s, e), ConnectedOf(s, e))
  }

  /** The same lists with other values beside them. */
  function WithRest(f: Fields, nextid: nat, cached: map<string, Host>, lookups: multiset<string>, connecting: bool): Fields {
    f.(nextid := nextid, cached := cached, lookups := lookups, connecting := connecting)
  }

  lemma WithRestShows(f: Fields, lists: Lists, nextid: nat, cached: map<string, Host>, lookups: multiset<string>, connecting: bool)
    requires ShowsLists(f, lists)
    ensures ShowsLists(WithRest(f, nextid, cached, lookups, connecting), lists)
  {
    var g := WithRest(f, nextid, cached, lookups, connecting);
    forall l: Label | Shared(l) ensures At(lists, l) == Field(g, l) {
      assert Field(g, l) == Field(f, l);
    }
  }

  lemma NextParts(s: State, e: Event)
    requires Enabled(s, e)
    ensures var t := Next(s, e);
            && t.lists == Changed(s.lists, ChangeOf(s, e)) && t.cache == CacheOf(s, e) && t.lookups == LookupsOf(s, e)
            && t.connected == ConnectedOf(s, e) && t.posted == (if e.Post? then s.posted + 1 else s.posted)
  {
  }

  lemma DidShows(f: Fields, s: State, e: Event)
    requires Shows(f, s) && Enabled(s, e) && Made(ChangeOf(s, e))
    ensures Shows(Did(f, s, e), Next(s, e))
  {
    DidShowsLists(f, s, e);
    DidRest(f, s, e);
    NextParts(s, e);
  }

  lemma DidShowsLists(f: Fields, s: State, e: Event)
    requires Shows(f, s) && Enabled(s, e) && Made(ChangeOf(s, e))
    ensures ShowsLists(Did(f, s, e), Changed(s.lists, ChangeOf(s, e)))
  {
    ChangedShows(f, s.lists, ChangeOf(s, e));
    WithRestShows(ChangedFields(f, ChangeOf(s, e)), Changed(s.lists, ChangeOf(s, e)),
                  if e.Post? then f.nextid + 1 else f.nextid, CacheOf(s, e), LookupsOf(s, e), ConnectedOf(s, e));
  }

  lemma DidRest(f: Fields, s: State, e: Event)
    requires Enabled(s, e) && Made(ChangeOf(s, e))
    ensures var g := Did(f, s, e);
            && g.nextid == (if e.Post? then f.nextid + 1 else f.nextid) && g.cached == CacheOf(s, e)
            && g.lookups == LookupsOf(s, e) && g.connecting == ConnectedOf(s, e)
  {
  }

  /** One uninterrupted `ProcessReqToReceiver`, where `outcome` is what connecting
      and writing came to. */
  function Processed(f: Fields, t: Task, outcome: Outcome, ok: bool): Fields {
    if t.name != "" && t.name !in f.cached then
      if t.retry then Asked(Parked(f, t), t.name, ok) else Appended(f, Failed, t)
    else if outcome == NoConnection && t.retry then
      Asked(Parked(f, t).(cached := f.cached - {t.name}), t.name, ok)
    else Appended(f, if outcome == Written then Sent else Failed, t)
  }

  function Parked(f: Fields, t: Task): Fields {
    Appended(f, Waiting(t.name), t.(waits := t.waits + 1))
  }

  function Asked(f: Fields, n: string, ok: bool): Fields {
    if f.connecting && ok then f.(lookups := f.lookups + multiset{n}) else f
  }

  /** Its steps; those that do not apply change nothing. */
  function Steps(w: string, outcome: Outcome, ok: bool): seq<Event> {
    [CheckCache(w), Deliver(w, outcome), Park(w), ForgetHost(w), AskServer(w, ok)]
  }

  function StepsEnd(s: State, w: string, ok: bool): State {
    Next(Next(Next(s, Park(w)), ForgetHost(w)), AskServer(w, ok))
  }

  lemma StepsRun(s: State, w: string, outcome: Outcome, ok: bool)
    ensures Run(s, Steps(w, outcome, ok)) == StepsEnd(Next(Next(s, CheckCache(w)), Deliver(w, outcome)), w, ok)
  {
    var e1: seq<Event> := [Deliver(w, outcome), Park(w), ForgetHost(w), AskServer(w, ok)];
    var e2: seq<Event> := [Park(w), ForgetHost(w), AskServer(w, ok)];
    var e3: seq<Event> := [ForgetHost(w), AskServer(w, ok)];
    var e4: seq<Event> := [AskServer(w, ok)];
    assert Steps(w, outcome, ok)[1..] == e1 && e1[1..] == e2 && e2[1..] == e3 && e3[1..] == e4 && e4[1..] == [];
    var s1 := Next(s, CheckCache(w));
    var s2 := Next(s1, Deliver(w, outcome));
    var s3 := Next(s2, Park(w));
    var s4 := Next(s3, ForgetHost(w));
    assert Run(s4, e4) == Next(s4, AskServer(w, ok));
    assert Run(s3, e3) == Run(s4, e4);
    assert Run(s2, e2) == Run(s3, e3);
    assert Run(s1, e1) == Run(s2, e2);
  }

  /** A worker that is done takes no further step by itself. */
  lemma IdleSkips(s: State, w: string, outcome: Outcome, ok: bool)
    requires w !in s.phases
    ensures Next(s, Deliver(w, outcome)) == s && StepsEnd(s, w, ok) == s
  {
    assert Next(s, Park(w)) == s;
    assert Next(s, ForgetHost(w)) == s;
  }

  lemma ParkedShows(f: Fields, s: State, w: string, t: Task)
    requires Shows(f, s) && Enabled(s, Park(w)) && t == Current(s, w)
    ensures Shows(Parked(f, t), Next(s, Park(w)))
    ensures var phases := Next(s, Park(w)).phases;
            w in phases && phases[w] == if s.phases[w] == Miss then Ask(t.name) else Forget(t.name)
  {
    DidShows(f, s, Park(w));
    assert ChangeOf(s, Park(w)) == Move(Running(w), Waiting(t.name), t.(waits := t.waits + 1));
    assert Did(f, s, Park(w)) == Parked(f, t);
  }

  lemma AskedShows(f: Fields, s: State, w: string, n: string, ok: bool)
    requires Shows(f, s) && w in s.phases && s.phases[w] == Ask(n)
    ensures Shows(Asked(f, n, ok), Next(s, AskServer(w, ok)))
  {
    DidShows(f, s, AskServer(w, ok));
  }

  lemma ForgotShows(f: Fields, s: State, w: string, n: string)
    requires Shows(f, s) && w in s.phases && s.phases[w] == Forget(n)
    ensures Shows(f.(cached := f.cached - {n}), Next(s, ForgetHost(w)))
    ensures var phases := Next(s, ForgetHost(w)).phases; w in phases && phases[w] == Ask(n)
  {
    DidShows(f, s, ForgetHost(w));
  }

  lemma ParkedEndShows(f: Fields, s: State, w: string, t: Task, ok: bool)
    requires Shows(f, s) && Enabled(s, Park(w)) && t == Current(s, w)
    ensures Shows(Asked(if s.phases[w] == Miss then Parked(f, t) else Parked(f, t).(cached := f.cached - {t.name}), t.name, ok),
                  StepsEnd(s, w, ok))
  {
    ParkedShows(f, s, w, t);
    var s3 := Next(s, Park(w));
    var s4 := Next(s3, ForgetHost(w));
    if s.phases[w] == Miss {
      assert s4 == s3;
      AskedShows(Parked(f, t), s4, w, t.name, ok);
    } else {
      ForgotShows(Parked(f, t), s3, w, t.name);
      AskedShows(Parked(f, t).(cached := f.cached - {t.name}), s4, w, t.name, ok);
    }
  }

  /** Consulting the cache: on, or at once given up. */
  lemma CheckedShows(f: Fields, s: State, w: string, t: Task)
    requires Shows(f, s) && Busy(s, w) && s.phases[w] == Fresh && t == Current(s, w)
    ensures var s1 := Next(s, CheckCache(w)); var p := AfterCheck(s, t);
            if p == None then Shows(Appended(f, Failed, t), s1) && w !in s1.phases
            else Shows(f, s1) && Busy(s1, w) && s1.phases[w] == p.value && t == Current(s1, w)
  {
    DidShows(f, s, CheckCache(w));
  }

  lemma DeliveredShows(f: Fields, s: State, w: string, t: Task, outcome: Outcome)
    requires Shows(f, s) && Busy(s, w) && s.phases[w].Connect? && t == Current(s, w)
    ensures var s1 := Next(s, Deliver(w, outcome)); var p := AfterDelivery(t, outcome);
            if p == None then Shows(Appended(f, if outcome == Written then Sent else Failed, t), s1) && w !in s1.phases
            else Shows(f, s1) && Busy(s1, w) && s1.phases[w] == Unreachable && t == Current(s1, w)
  {
    DidShows(f, s, Deliver(w, outcome));
  }

  lemma ProcessedShows(f: Fields, s: State, w: string, t: Task, outcome: Outcome, ok: bool)
    requires Shows(f, s) && Busy(s, w) && s.phases[w] == Fresh && t == Current(s, w)
    ensures Shows(Processed(f, t, outcome, ok), Run(s, Steps(w, outcome, ok)))
  {
    StepsRun(s, w, outcome, ok);
    CheckedShows(f, s, w, t);
    var s1, p := Next(s, CheckCache(w)), AfterCheck(s, t);
    if p == None {
      IdleSkips(s1, w, outcome, ok);
    } else if p.value == Miss {
      MissEndShows(f, s1, w, t, outcome, ok);
    } else {
      DeliveredEndShows(f, s1, w, t, outcome, ok);
    }
  }

  lemma MissEndShows(f: Fields, s: State, w: string, t: Task, outcome: Outcome, ok: bool)
    requires Shows(f, s) && Busy(s, w) && s.phases[w] == Miss && t == Current(s, w)
    ensures Shows(Asked(Parked(f, t), t.name, ok), StepsEnd(Next(s, Deliver(w, outcome)), w, ok))
  {
    assert Next(s, Deliver(w, outcome)) == s;
    ParkedEndShows(f, s, w, t, ok);
  }

  lemma DeliveredEndShows(f: Fields, s: State, w: string, t: Task, outcome: Outcome, ok: bool)
    requires Shows(f, s) && Busy(s, w) && s.phases[w].Connect? && t == Current(s, w)
    ensures var end := StepsEnd(Next(s, Deliver(w, outcome)), w, ok);
            if AfterDelivery(t, outcome) == None then Shows(Appended(f, if outcome == Written then Sent else Failed, t), end)
            else Shows(Asked(Parked(f, t).(cached := f.cached - {t.name}), t.name, ok), end)
  {
    DeliveredShows(f, s, w, t, outcome);
    var s2 := Next(s, Deliver(w, outcome));
    if AfterDelivery(t, outcome) == None {
      IdleSkips(s2, w, outcome, ok);
    } else {
      ParkedEndShows(f, s2, w, t, ok);
    }
  }

  function Repeat(s: State, e: Event, k: nat): State
    decreases k
  {
    if k == 0 then s else Repeat(Next(s, e), e, k - 1)
  }

  /** The inner loop of the dispatcher thread. */
  function HandedOut(f: Fields, tasks: seq<Task>): Fields
    decreases |tasks|
  {
    if tasks == [] then f
    else HandedOut(f.(workers := Pushed(f.workers, WorkerOf(tasks[0].name), tasks[0])), tasks[1..])
  }

  /** The taken requests passed on one by one: to the queue, or given up. */
  function PassedOn(f: Fields, tasks: seq<Task>, to: Label): Fields
    requires Shared(to)
    decreases |tasks|
  {
    if tasks == [] then f else PassedOn(Appended(f, to, tasks[0].(retry := false)), tasks[1..], to)
  }

  /** The reply taken together with the waiting requests, and its address cached. */
  function Told(f: Fields, n: string, reply: Reply): Fields {
    f.(waiting := f.waiting - {n}, lookups := f.lookups - multiset{n},
       cached := if reply.Found? then f.cached[n := reply.host] else f.cached)
  }

  /** One uninterrupted `HandleRspGetClient`. */
  function Answered(f: Fields, n: string, reply: Reply): Fields {
    PassedOn(Told(f, n, reply), Under(f.waiting, n), if reply.Found? then Queue else Failed)
  }

  lemma HandledShows(f: Fields, s: State, e: Event)
    requires Shows(f, s) && Enabled(s, e) && (e == Requeue || e == Drop) && At(s.lists, Handling) != []
    ensures var t := At(s.lists, Handling)[0].(retry := false);
            Shows(Appended(f, if e == Requeue then Queue else Failed, t), Next(s, e))
    ensures At(Next(s, e).lists, Handling) == At(s.lists, Handling)[1..] && Next(s, e).handler == s.handler
  {
    DidShows(f, s, e);
  }

  lemma HandedShows(f: Fields, s: State)
    requires Shows(f, s) && At(s.lists, Dispatch) != []
    ensures var t := At(s.lists, Dispatch)[0]; Shows(f.(workers := Pushed(f.workers, WorkerOf(t.name), t)), Next(s, Hand))
    ensures At(Next(s, Hand).lists, Dispatch) == At(s.lists, Dispatch)[1..]
  {
    DidShows(f, s, Hand);
  }

  lemma {:induction false} HandedOutShows(f: Fields, s: State)
    requires Shows(f, s)
    ensures var k := |At(s.lists, Dispatch)|; Shows(HandedOut(f, At(s.lists, Dispatch)), Repeat(s, Hand, k))
    decreases |At(s.lists, Dispatch)|
  {
    var tasks := At(s.lists, Dispatch);
    if tasks != [] {
      HandedShows(f, s);
      HandedOutShows(f.(workers := Pushed(f.workers, WorkerOf(tasks[0].name), tasks[0])), Next(s, Hand));
    }
  }

  lemma {:induction false} PassedOnShows(f: Fields, s: State, e: Event)
    requires Shows(f, s) && Enabled(s, e) && (e == Requeue || e == Drop)
    ensures var tasks := At(s.lists, Handling);
            Shows(PassedOn(f, tasks, if e == Requeue then Queue else Failed), Repeat(s, e, |tasks|))
    decreases |At(s.lists, Handling)|
  {
    var tasks := At(s.lists, Handling);
    if tasks != [] {
      HandledShows(f, s, e);
      PassedOnShows(Appended(f, if e == Requeue then Queue else Failed, tasks[0].(retry := false)), Next(s, e), e);
    }
  }

  lemma ToldShows(f: Fields, s: State, n: string, reply: Reply)
    requires Shows(f, s) && Enabled(s, Respond(n, reply))
    ensures var told := Next(Next(s, Respond(n, reply)), Apply);
            && At(told.lists, Handling) == Under(f.waiting, n)
            && told.handler == (if reply.Found? then Requeueing else Dropping)
            && Shows(Told(f, n, reply), told)
  {
    var s1 := Next(s, Respond(n, reply));
    DidShows(f, s, Respond(n, reply));
    DidShows(f.(waiting := f.waiting - {n}, lookups := f.lookups - multiset{n}), s1, Apply);
    assert At(s.lists, Waiting(n)) == Field(f, Waiting(n));
  }

  lemma AnsweredShows(f: Fields, s: State, n: string, reply: Reply)
    requires Shows(f, s) && Enabled(s, Respond(n, reply))
    ensures var told := Next(Next(s, Respond(n, reply)), Apply);
            Shows(Answered(f, n, reply), Repeat(told, if reply.Found? then Requeue else Drop, |Under(f.waiting, n)|))
  {
    ToldShows(f, s, n, reply);
    PassedOnShows(Told(f, n, reply), Next(Next(s, Respond(n, reply)), Apply), if reply.Found? then Requeue else Drop);
  }

  class Req2ReceiverMgr {
    var nextid: nat
    var container: seq<Task>
    var workers: map<string, seq<Task>>
    var waiting: map<string, seq<Task>>
    var cached: map<string, Host>
    var connecting: bool
    var lookups: multiset<string>
    var sent: seq<Task>
    var failed: seq<Task>

    constructor ()
      ensures Shows(Now(), Initial())
    {
      nextid, container, workers, waiting, cached := 0, [], map[], map[], map[];
      connecting, lookups, sent, failed := true, multiset{}, [], [];
    }

    function Now(): Fields
      reads this
    {
      Fields(nextid, container, workers, waiting, cached, connecting, lookups, sent, failed)
    }

    method QueueReqTask(name: string, dest: Host, ghost s: State)
      requires Shows(Now(), s)
      modifies this
      ensures Shows(Now(), Next(s, Post(name, dest)))
    {
      DidShows(Now(), s, Post(name, dest));
      container := container + [Task(nextid, name, dest, name != "", 0, 0)];
      nextid := nextid + 1;
      assert Now() == Did(old(Now()), s, Post(name, dest));
    }

    method SwapTasks(ghost s: State) returns (list: seq<Task>)
      requires Shows(Now(), s) && At(s.lists, Dispatch) == []
      modifies this
      ensures Shows(Now(), Next(s, SwapQueue)) && list == At(Next(s, SwapQueue).lists, Dispatch)
    {
      DidShows(Now(), s, SwapQueue);
      list := container;
      assert list == At(s.lists, Queue);
      container := [];
      assert Now() == Did(old(Now()), s, SwapQueue);
    }

    /** The inner loop of `ProcessReq2ReceiverThreadFunc`. */
    method HandOut(tasks: seq<Task>)
      modifies this`workers
      ensures Now() == HandedOut(old(Now()), tasks)
    {
      var list := tasks;
      while list != []
        invariant HandedOut(Now(), list) == HandedOut(old(Now()), tasks)
        decreases |list|
      {
        var t := list[0];
        var w := WorkerOf(t.name);
        workers := workers[w := (if w in workers then workers[w] else []) + [t]];
        list := list[1..];
      }
    }

    method QueueWaitingTask(t: Task)
      modifies this`waiting
      ensures Now() == Parked(old(Now()), t)
    {
      waiting := waiting[t.name := (if t.name in waiting then waiting[t.name] else []) + [t.(waits := t.waits + 1)]];
    }

    /** `taken` tells whether the socket takes the question. */
    method ReqReceiverInfo(name: string, taken: bool)
      modifies this`lookups
      ensures Now() == Asked(old(Now()), name, taken)
    {
      if connecting && taken {
        lookups := lookups + multiset{name};
      }
    }

    method ProcessReq(t: Task, outcome: Outcome, taken: bool) returns (ok: bool)
      modifies this
      ensures Now() == Processed(old(Now()), t, outcome, taken)
      ensures ok <==> |failed| == |old(failed)|
    {
      ok := true;
      if t.name != "" && t.name !in cached {
        if t.retry {
          QueueWaitingTask(t);
          ReqReceiverInfo(t.name, taken);
          assert failed == old(failed);
        } else {
          Fail(t);
          ok := false;
        }
      } else if outcome == NoConnection && t.retry {
        QueueWaitingTask(t);
        cached := cached - {t.name};
        ReqReceiverInfo(t.name, taken);
      } else if outcome == Written {
        sent := sent + [t];
      } else {
        Fail(t);
        ok := false;
      }
    }

    method Fail(t: Task)
      modifies this`failed
      ensures Now() == Appended(old(Now()), Failed, t)
    {
      failed := failed + [t];
    }

    method HandleRspGetClient(name: string, reply: Reply)
      modifies this
      ensures Now() == Answered(old(Now()), name, reply)
    {
      var pending := TakeReply(name, reply);
      PassOn(pending, reply.Found?);
    }

    method TakeReply(name: string, reply: Reply) returns (pending: seq<Task>)
      modifies this
      ensures pending == Under(old(waiting), name)
      ensures Now() == Told(old(Now()), name, reply)
    {
      lookups := lookups - multiset{name};
      pending := if name in waiting then waiting[name] else [];
      waiting := waiting - {name};
      if reply.Found? {
        cached := cached[name := reply.host];
      }
    }

    method PassOn(tasks: seq<Task>, found: bool)
      modifies this`container, this`failed
      ensures Now() == PassedOn(old(Now()), tasks, if found then Queue else Failed)
    {
      var pending := tasks;
      ghost var to := if found then Queue else Failed;
      while pending != []
        invariant PassedOn(Now(), pending, to) == PassedOn(old(Now()), tasks, to)
        decreases |pending|
      {
        var t := pending[0].(retry := false);
        if found {
          container := container + [t];
        } else {
          failed := failed + [t];
        }
        pending := pending[1..];
      }
    }
  }
}
