/** Futures and their ids (Core/NetMsgBusFuture.hpp): each request gets a 32-bit id,
    and the response that carries it resolves the request's future. */
module Futures {
  import opened Bytes
  import Framing

  const WRAP: nat := 0x1_0000_0000

  /** There are this many ids: 0 is skipped. */
  const CYCLE: nat := 0xFFFF_FFFF

  const MAX_EXIST_TIME: int := 120

  /** `++future_inc_id_` on 32 bits, once more if that gives 0. */
  function NextId(id: nat): nat {
    var n := (id + 1) % WRAP;
    if n == 0 then (n + 1) % WRAP else n
  }

  /** The id after `k` issues. */
  function IdAfter(k: nat): nat {
    if k == 0 then 0 else NextId(IdAfter(k - 1))
  }

  lemma ModStep(k: nat)
    requires k > 0
    ensures k % CYCLE == if (k - 1) % CYCLE == CYCLE - 1 then 0 else (k - 1) % CYCLE + 1
  {
    var q, r := (k - 1) / CYCLE, (k - 1) % CYCLE;
    assert k == q * CYCLE + r + 1;
    if r == CYCLE - 1 {
      assert k == (q + 1) * CYCLE;
    }
  }

  /** The k-th id is ((k - 1) mod (2^32 - 1)) + 1: never 0, and the ids go round. */
  lemma {:induction false} IdFormula(k: nat)
    requires k > 0
    ensures IdAfter(k) == (k - 1) % CYCLE + 1
    ensures 0 < IdAfter(k) < WRAP
  {
    if k == 1 {
      assert IdAfter(0) == 0;
    } else {
      IdFormula(k - 1);
      ModStep(k - 1);
      NextOf((k - 2) % CYCLE);
    }
  }

  lemma NextOf(r: nat)
    requires r < CYCLE
    ensures NextId(r + 1) == if r == CYCLE - 1 then 1 else r + 2
  {
  }

  lemma SameResidue(j: nat, k: nat)
    requires j <= k
    ensures j % CYCLE == k % CYCLE <==> (k - j) % CYCLE == 0
  {
    var a, b := j / CYCLE, k / CYCLE;
    assert k - j == (b - a) * CYCLE + (k % CYCLE - j % CYCLE);
  }

  /** Two issues share an id exactly when they lie a whole number of cycles apart. */
  lemma IdsRepeat(j: nat, k: nat)
    requires 0 < j <= k
    ensures IdAfter(j) == IdAfter(k) <==> (k - j) % CYCLE == 0
  {
    IdFormula(j);
    IdFormula(k);
    SameId(IdAfter(j), IdAfter(k), j, k);
  }

  lemma SameId(a: nat, b: nat, j: nat, k: nat)
    requires 0 < j <= k && a == (j - 1) % CYCLE + 1 && b == (k - 1) % CYCLE + 1
    ensures a == b <==> (k - j) % CYCLE == 0
  {
    SameResidue(j - 1, k - 1);
    assert (k - 1) - (j - 1) == k - j;
  }

  // ------------------------------------------------------------ the manager

  /** A future: the number of the issue that made it, and when. */
  datatype Future = Future(serial: nat, born: int)

  /** `last` is the counter, `live` the container, `issued` counts the issues and
      `resolved` logs the results that futures were given, in order. */
  datatype Mgr<T> = Mgr(last: nat, live: map<nat, Future>, issued: nat, resolved: seq<(nat, T)>)

  datatype Event<T> =
    | Issue(now: int)
    | Respond(id: nat, data: T)
    | Remove(id: nat)
    | ClearBad(now: int)

  function Initial<T>(): Mgr<T> {
    Mgr(0, map[], 0, [])
  }

  function Good(live: map<nat, Future>, now: int): map<nat, Future> {
    map id | id in live && now - live[id].born <= MAX_EXIST_TIME :: live[id]
  }

  /** An insertion under an id that is still in use keeps the older future. */
  function Next<T>(m: Mgr<T>, e: Event<T>): Mgr<T> {
    match e
    case Issue(now) =>
      var id := NextId(m.last);
      m.(last := id, issued := m.issued + 1,
         live := if id in m.live then m.live else m.live[id := Future(m.issued + 1, now)])
    case Respond(id, data) =>
      if id in m.live then m.(live := m.live - {id}, resolved := m.resolved + [(m.live[id].serial, data)]) else m
    case Remove(id) => m.(live := m.live - {id})
    case ClearBad(now) => m.(live := Good(m.live, now))
  }

  function Run<T>(m: Mgr<T>, es: seq<Event<T>>): Mgr<T>
    decreases |es|
  {
    if es == [] then m else Run(Next(m, es[0]), es[1..])
  }

  /** A live future has the id of its issue. */
  ghost predicate LiveFine<T>(m: Mgr<T>) {
    && m.last == IdAfter(m.issued)
    && forall id: nat :: id in m.live ==> 0 < m.live[id].serial <= m.issued && id == IdAfter(m.live[id].serial)
  }

  /** Live futures are unresolved, and none is resolved twice. */
  ghost predicate ResolvedFine<T>(m: Mgr<T>) {
    && (forall i :: 0 <= i < |m.resolved| ==> m.resolved[i].0 <= m.issued)
    && (forall id: nat, i :: id in m.live && 0 <= i < |m.resolved| ==> m.resolved[i].0 != m.live[id].serial)
    && (forall i, j :: 0 <= i < j < |m.resolved| ==> m.resolved[i].0 != m.resolved[j].0)
  }

  ghost predicate Inv<T>(m: Mgr<T>) {
    LiveFine(m) && ResolvedFine(m)
  }

  lemma IdStep(k: nat)
    ensures IdAfter(k + 1) == NextId(IdAfter(k))
  {
  }

  lemma NextLive<T>(m: Mgr<T>, e: Event<T>)
    requires LiveFine(m)
    ensures LiveFine(Next(m, e))
  {
    IdStep(m.issued);
  }

  /** Two live futures are different ones. */
  lemma OneId<T>(m: Mgr<T>, a: nat, b: nat)
    requires LiveFine(m) && a in m.live && b in m.live && m.live[a].serial == m.live[b].serial
    ensures a == b
  {
  }

  lemma NextResolved<T>(m: Mgr<T>, e: Event<T>)
    requires LiveFine(m) && ResolvedFine(m)
    ensures ResolvedFine(Next(m, e))
  {
    if e.Respond? && e.id in m.live {
      forall b: nat | b in m.live && b != e.id ensures m.live[b].serial != m.live[e.id].serial {
        if m.live[b].serial == m.live[e.id].serial { OneId(m, b, e.id); }
      }
    }
  }

  lemma NextInv<T>(m: Mgr<T>, e: Event<T>)
    requires Inv(m)
    ensures Inv(Next(m, e))
  {
    NextLive(m, e);
    NextResolved(m, e);
  }

  lemma {:induction false} RunInv<T>(m: Mgr<T>, es: seq<Event<T>>)
    requires Inv(m)
    ensures Inv(Run(m, es))
    decreases |es|
  {
    if es != [] {
      NextInv(m, es[0]);
      RunInv(Next(m, es[0]), es[1..]);
    }
  }

  /** In every run no future is resolved twice. */
  lemma ResolvedOnce<T>(es: seq<Event<T>>)
    ensures var m := Run(Initial<T>(), es);
            forall i, j :: 0 <= i < j < |m.resolved| ==> m.resolved[i].0 != m.resolved[j].0
  {
    RunInv(Initial<T>(), es);
  }

  /** A live future issued a whole number of cycles before the next issue. */
  ghost predicate CycleBefore<T>(m: Mgr<T>, id: nat)
    requires id in m.live
  {
    (m.issued + 1 - m.live[id].serial) % CYCLE == 0
  }

  lemma SameAsNext<T>(m: Mgr<T>, id: nat)
    requires LiveFine(m) && id in m.live
    ensures id == NextId(m.last) <==> CycleBefore(m, id)
  {
    IdStep(m.issued);
    IdsRepeat(m.live[id].serial, m.issued + 1);
  }

  /** In every run the next id is free exactly when no live future was issued a whole
      number of cycles before. */
  lemma FreshExact<T>(es: seq<Event<T>>)
    ensures var m := Run(Initial<T>(), es);
            NextId(m.last) !in m.live <==> forall id: nat :: id in m.live ==> !CycleBefore(m, id)
  {
    RunInv(Initial<T>(), es);
    var m := Run(Initial<T>(), es);
    forall id: nat | id in m.live ensures id == NextId(m.last) <==> CycleBefore(m, id) {
      SameAsNext(m, id);
    }
  }

  /** So while live futures span less than a cycle, every insertion is fresh. */
  lemma FreshWithinCycle<T>(es: seq<Event<T>>)
    requires var m := Run(Initial<T>(), es); forall id: nat :: id in m.live ==> m.issued + 1 - m.live[id].serial < CYCLE
    ensures var m := Run(Initial<T>(), es); NextId(m.last) !in m.live
  {
    FreshExact(es);
    RunInv(Initial<T>(), es);
    var m := Run(Initial<T>(), es);
    forall id: nat | id in m.live ensures !CycleBefore(m, id) {
      assert 0 < m.issued + 1 - m.live[id].serial < CYCLE;
    }
  }

  /** An event that leaves the future under `id` alone. */
  predicate Spares<T>(e: Event<T>, id: nat, born: int) {
    match e
    case Issue(_) => true
    case Respond(i, _) => i != id
    case Remove(i) => i != id
    case ClearBad(now) => now - born <= MAX_EXIST_TIME
  }

  lemma {:induction false} SparedStays<T>(m: Mgr<T>, es: seq<Event<T>>, id: nat)
    requires id in m.live && forall i :: 0 <= i < |es| ==> Spares(es[i], id, m.live[id].born)
    ensures id in Run(m, es).live && Run(m, es).live[id] == m.live[id]
    decreases |es|
  {
    if es != [] {
      assert Spares(es[0], id, m.live[id].born);
      SparedStays(Next(m, es[0]), es[1..], id);
    }
  }

  lemma {:induction false} ResolvedStays<T>(m: Mgr<T>, es: seq<Event<T>>)
    ensures m.resolved <= Run(m, es).resolved
    decreases |es|
  {
    if es != [] {
      ResolvedStays(Next(m, es[0]), es[1..]);
    }
  }

  lemma {:induction false} RunAppend<T>(m: Mgr<T>, a: seq<Event<T>>, b: seq<Event<T>>)
    ensures Run(m, a + b) == Run(Run(m, a), b)
    decreases |a|
  {
    if a == [] {
      assert a + b == b;
    } else {
      assert (a + b)[0] == a[0] && (a + b)[1..] == a[1..] + b;
      RunAppend(Next(m, a[0]), a[1..], b);
    }
  }

  /** In every run a future is resolved by the first response that carries its id,
      unless it is removed before, and by nothing else later. */
  lemma FirstResponseWins<T>(before: seq<Event<T>>, between: seq<Event<T>>, data: T, after: seq<Event<T>>, id: nat)
    requires id in Run(Initial<T>(), before).live
    requires forall i :: 0 <= i < |between| ==> Spares(between[i], id, Run(Initial<T>(), before).live[id].born)
    ensures var future := Run(Initial<T>(), before).live[id].serial;
            var end := Run(Initial<T>(), before + (between + ([Respond(id, data)] + after)));
            forall i :: 0 <= i < |end.resolved| && end.resolved[i].0 == future ==> end.resolved[i].1 == data
    ensures var future := Run(Initial<T>(), before).live[id].serial;
            (future, data) in Run(Initial<T>(), before + (between + ([Respond(id, data)] + after))).resolved
  {
    var m0 := Run(Initial<T>(), before);
    var m1 := Run(m0, between);
    var m2 := Next(m1, Respond(id, data));
    var tail := [Respond(id, data)] + after;
    RunAppend(Initial<T>(), before, between + tail);
    RunAppend(m0, between, tail);
    assert tail[0] == Respond(id, data) && tail[1..] == after;
    SparedStays(m0, between, id);
    ResolvedStays(m2, after);
    var end := Run(m2, after);
    ResolvedOnce(before + (between + tail));
    var k := |m1.resolved|;
    assert m2.resolved[k] == (m0.live[id].serial, data);
    assert end.resolved[k] == m2.resolved[k];
  }

  // ------------------------------------------------------------ who is live

  /** The state before event number `i`. */
  function StateAt<T>(es: seq<Event<T>>, i: nat): Mgr<T>
    requires i <= |es|
  {
    Run(Initial<T>(), es[..i])
  }

  /** The event answers the future under `id`, gives it up, or finds it older than 120
      seconds. */
  predicate Ends<T>(e: Event<T>, id: nat, born: int) {
    match e
    case Issue(_) => false
    case Respond(i, _) => i == id
    case Remove(i) => i == id
    case ClearBad(now) => now - born > 120
  }

  /** Future `f` was made under `id` by event number `i`, and nothing ended it since. */
  ghost predicate MadeAt<T>(es: seq<Event<T>>, id: nat, f: Future, i: int) {
    && 0 <= i < |es| && es[i] == Issue(f.born)
    && StateAt(es, i).issued + 1 == f.serial && IdAfter(f.serial) == id && id !in StateAt(es, i).live
    && forall j :: i < j < |es| ==> !Ends(es[j], id, f.born)
  }

  lemma LiveStep<T>(m: Mgr<T>, e: Event<T>, id: nat, f: Future)
    requires m.last == IdAfter(m.issued)
    ensures (id in Next(m, e).live && Next(m, e).live[id] == f) <==>
            (id in m.live && m.live[id] == f && !Ends(e, id, f.born))
            || (e == Issue(f.born) && m.issued + 1 == f.serial && IdAfter(f.serial) == id && id !in m.live)
  {
    IdStep(m.issued);
  }

  lemma MadeStep<T>(es: seq<Event<T>>, id: nat, f: Future, i: int)
    requires es != []
    ensures var k := |es| - 1;
            MadeAt(es, id, f, i) <==>
            (i == k && es[k] == Issue(f.born) && StateAt(es, k).issued + 1 == f.serial && IdAfter(f.serial) == id
             && id !in StateAt(es, k).live)
            || (MadeAt(es[..k], id, f, i) && !Ends(es[k], id, f.born))
  {
    var k := |es| - 1;
    if 0 <= i < k {
      assert es[..k][..i] == es[..i];
    }
  }

  lemma MadeExists<T>(es: seq<Event<T>>, id: nat, f: Future)
    requires es != []
    ensures var k := |es| - 1;
            (exists i :: MadeAt(es, id, f, i)) <==>
            (es[k] == Issue(f.born) && StateAt(es, k).issued + 1 == f.serial && IdAfter(f.serial) == id
             && id !in StateAt(es, k).live)
            || (!Ends(es[k], id, f.born) && exists i :: MadeAt(es[..k], id, f, i))
  {
    var k := |es| - 1;
    MadeStep(es, id, f, k);
    if i :| MadeAt(es, id, f, i) {
      MadeStep(es, id, f, i);
    }
    if i :| MadeAt(es[..k], id, f, i) {
      MadeStep(es, id, f, i);
    }
  }

  /** In every run exactly those futures are live that were made under a free id and
      have since been neither answered, nor given up, nor found too old. */
  lemma {:induction false} LiveExact<T>(es: seq<Event<T>>, id: nat, f: Future)
    ensures var m := Run(Initial<T>(), es);
            (id in m.live && m.live[id] == f) <==> exists i :: MadeAt(es, id, f, i)
    decreases |es|
  {
    if es != [] {
      var k := |es| - 1;
      assert es == es[..k] + [es[k]];
      LiveExact(es[..k], id, f);
      var m := StateAt(es, k);
      RunInv(Initial<T>(), es[..k]);
      RunAppend(Initial<T>(), es[..k], [es[k]]);
      assert [es[k]][1..] == [] && Run(m, [es[k]]) == Next(m, es[k]);
      LiveStep(m, es[k], id, f);
      MadeExists(es, id, f);
    }
  }

  // ------------------------------------------------------------ responses on the wire

  datatype Response = Response(sid: nat, data: seq<Byte>)

  /** What a response frame asks of the manager. */
  function Answer(f: seq<Byte>): Event<seq<Byte>> {
    if |f| < Framing.RESPONSE_HEAD then Respond(0, []) else Respond(Framing.ResponseSid(f), Framing.ResponseData(f))
  }

  function Answers(frames: seq<seq<Byte>>): seq<Event<seq<Byte>>> {
    seq(|frames|, i requires 0 <= i < |frames| => Answer(frames[i]))
  }

  function Wire(rs: seq<Response>): seq<seq<Byte>> {
    seq(|rs|, i requires 0 <= i < |rs| => Framing.ResponseFrame(rs[i].sid, rs[i].data))
  }

  function Sent(rs: seq<Response>): seq<Event<seq<Byte>>> {
    seq(|rs|, i requires 0 <= i < |rs| => Respond(rs[i].sid, rs[i].data))
  }

  lemma OneResponse(sid: nat, data: seq<Byte>)
    requires sid < U32 && |data| < U32
    ensures var f := Framing.ResponseFrame(sid, data);
            Framing.IsFrame(Framing.RESPONSE_HEAD, f) && Answer(f) == Respond(sid, data)
  {
    Framing.ResponseRoundTrip(sid, data);
  }

  /** Responses written one after the other reach the manager in order, each with its
      id and its data. */
  lemma ResponsesArrive(rs: seq<Response>)
    requires forall i :: 0 <= i < |rs| ==> rs[i].sid < U32 && |rs[i].data| < U32
    ensures Framing.Parse(Framing.RESPONSE_HEAD, Framing.Flat(Wire(rs))) == Framing.Parsed(Wire(rs), [])
    ensures Answers(Wire(rs)) == Sent(rs)
  {
    var frames := Wire(rs);
    forall i | 0 <= i < |rs|
      ensures Framing.IsFrame(Framing.RESPONSE_HEAD, frames[i]) && Answers(frames)[i] == Respond(rs[i].sid, rs[i].data)
    {
      OneResponse(rs[i].sid, rs[i].data);
    }
    Framing.ParseFlat(Framing.RESPONSE_HEAD, frames, []);
    assert Framing.Flat(frames) + [] == Framing.Flat(frames);
    assert frames + [] == frames;
  }

  // ------------------------------------------------------------ the code

  class FutureMgr {
    var incid: nat
    var issued: nat
    var container: map<nat, Future>

    constructor ()
      ensures incid == 0 && issued == 0 && container == map[]
    {
      incid, issued, container := 0, 0, map[];
    }

    ghost predicate Shows<T>(m: Mgr<T>)
      reads this
    {
      incid == m.last && issued == m.issued && container == m.live
    }

    method InsertFuture<T>(now: int, ghost m: Mgr<T>) returns (id: nat, future: Future)
      requires Shows(m)
      modifies this
      ensures Shows(Next(m, Issue(now))) && id == incid
      ensures id in container && future == container[id]
    {
      incid := (incid + 1) % WRAP;
      if incid == 0 {
        incid := (incid + 1) % WRAP;
      }
      issued := issued + 1;
      id := incid;
      if id !in container {
        container := container[id := Future(issued, now)];
      }
      future := container[id];
    }

    /** The lookup with erasure that a response makes. */
    method TakeFuture<T>(id: nat, data: T, ghost m: Mgr<T>) returns (found: bool, future: Future)
      requires Shows(m)
      modifies this
      ensures Shows(Next(m, Respond(id, data))) && (found <==> id in m.live)
      ensures found ==> Next(m, Respond(id, data)).resolved == m.resolved + [(future.serial, data)]
    {
      found, future := false, Future(0, 0);
      if id in container {
        found, future := true, container[id];
        container := container - {id};
      }
    }

    /** `Req2Receiver_onRead`: every whole frame resolves a future, if it finds one. */
    method OnRead(data: seq<Byte>, ghost m: Mgr<seq<Byte>>) returns (readed: nat, given: seq<(nat, seq<Byte>)>)
      requires Shows(m)
      modifies this
      ensures readed <= |data|
      ensures var p := Framing.Parse(Framing.RESPONSE_HEAD, data);
              && p.rest == data[readed..] && Shows(Run(m, Answers(p.frames)))
              && Run(m, Answers(p.frames)).resolved == m.resolved + given
    {
      var frames;
      frames, readed := Framing.ReadLoop(Framing.RESPONSE_HEAD, data);
      Framing.ParseShape(Framing.RESPONSE_HEAD, data);
      given := [];
      ghost var now := m;
      ghost var todo := Answers(frames);
      ghost var end := Run(m, todo);
      var left := frames;
      while left != []
        modifies this
        invariant Framing.AllFrames(Framing.RESPONSE_HEAD, left)
        invariant todo == Answers(left) && Run(now, todo) == end
        invariant Shows(now) && now.resolved == m.resolved + given
        decreases |left|
      {
        var f := left[0];
        assert f in left && todo[0] == Answer(f) && todo[1..] == Answers(left[1..]);
        var sid, content := Framing.ResponseSid(f), Framing.ResponseData(f);
        var found, future := TakeFuture(sid, content, now);
        if found {
          given := given + [(future.serial, content)];
        }
        now := Next(now, Respond(sid, content));
        todo := todo[1..];
        left := left[1..];
      }
    }

    method RemoveFuture<T>(id: nat, ghost m: Mgr<T>)
      requires Shows(m)
      modifies this
      ensures Shows(Next(m, Remove(id)))
    {
      container := container - {id};
    }

    /** The erase loop of `safe_clear_bad_future`, over the ids in any order. */
    method ClearBadFutures<T>(now: int, ghost m: Mgr<T>)
      requires Shows(m)
      modifies this
      ensures Shows(Next(m, ClearBad(now)))
    {
      var todo := container.Keys;
      while todo != {}
        modifies this`container
        invariant todo <= m.live.Keys
        invariant forall id: nat :: id in container <==>
                    id in m.live && (id in todo || now - m.live[id].born <= MAX_EXIST_TIME)
        invariant forall id: nat :: id in container ==> container[id] == m.live[id]
        decreases |todo|
      {
        var id :| id in todo;
        if now - container[id].born > MAX_EXIST_TIME {
          container := container - {id};
        }
        todo := todo - {id};
      }
      assert container == Good(m.live, now);
    }
  }
}
