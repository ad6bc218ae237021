/** Where requests go (Core/NetMsgBusReq2ReceiverMgr.hpp): a request is carried
    unchanged from the poster, and is connected to the address its poster gave or to
    the one that was last learnt for its name. */
module RequestHosts {
  import opened Requests
  import opened RequestOrder

  /** The state before event number `i`. */
  function StateAt(es: seq<Event>, i: nat): State
    requires i <= |es|
  {
    Run(Initial(), es[..i])
  }

  lemma StateNext(es: seq<Event>, i: nat)
    requires i < |es|
    ensures StateAt(es, i + 1) == Next(StateAt(es, i), es[i])
  {
    assert es[..i + 1] == es[..i] + [es[i]];
    RunThen(Initial(), es[..i], es[i]);
  }

  lemma StateOfFront(es: seq<Event>, n: nat, i: nat)
    requires i <= n <= |es|
    ensures StateAt(es[..n], i) == StateAt(es, i)
  {
    assert es[..n][..i] == es[..i];
  }

  // ------------------------------------------------------------ what is carried

  /** What was posted, in order: a name, or the address in its place. */
  function Posts(es: seq<Event>): seq<(string, Host)> {
    if es == [] then []
    else
      var e := es[|es| - 1];
      Posts(es[..|es| - 1]) + if e.Post? then [(e.name, e.dest)] else []
  }

  /** A request is the one posted under its number; only one by name is ever parked. */
  ghost predicate Carried(posts: seq<(string, Host)>, t: Task) {
    && t.id < |posts| && posts[t.id] == (t.name, t.dest)
    && (t.name == "" ==> !t.retry && t.waits == 0)
  }

  ghost predicate AllCarried(posts: seq<(string, Host)>, lists: Lists) {
    forall l: Label, i: nat :: i < |At(lists, l)| ==> Carried(posts, At(lists, l)[i])
  }

  ghost predicate ChangeCarried(posts: seq<(string, Host)>, c: Change) {
    (c.Add? || c.Move?) ==> Carried(posts, c.task)
  }

  lemma ChangeKeepsCarried(posts: seq<(string, Host)>, lists: Lists, c: Change)
    requires AllCarried(posts, lists) && ChangeCarried(posts, c)
    ensures AllCarried(posts, Changed(lists, c))
  {
    var after := Changed(lists, c);
    forall l: Label, i: nat | i < |At(after, l)| ensures Carried(posts, At(after, l)[i]) {
      var p := Before(lists, c, l, i);
      if p.1 < |At(lists, p.0)| {
        assert Carried(posts, At(lists, p.0)[p.1]);
      }
    }
  }

  lemma NextChangeCarried(posts: seq<(string, Host)>, s: State, e: Event)
    requires AllCarried(posts, s.lists) && Enabled(s, e) && WorkersFine(s) && !e.Post?
    ensures ChangeCarried(posts, ChangeOf(s, e))
  {
    var c := ChangeOf(s, e);
    if c.Move? {
      assert At(s.lists, c.from) != [];
      assert Carried(posts, At(s.lists, c.from)[0]);
      if e.Park? {
        assert WorkerFine(s, e.worker);
      }
    }
  }

  lemma MorePosts(posts: seq<(string, Host)>, more: seq<(string, Host)>, lists: Lists)
    requires AllCarried(posts, lists)
    ensures AllCarried(posts + more, lists)
  {
    forall l: Label, i: nat | i < |At(lists, l)| ensures Carried(posts + more, At(lists, l)[i]) {
      assert Carried(posts, At(lists, l)[i]);
    }
  }

  /** In every run every request anywhere is what was posted under its number; a
      request by address is never parked and never tried again. */
  lemma {:induction false} CarriedUnchanged(es: seq<Event>)
    ensures var s := Run(Initial(), es); |Posts(es)| == s.posted && AllCarried(Posts(es), s.lists) && WorkersFine(s)
  {
    if es != [] {
      var k, e := |es| - 1, es[|es| - 1];
      CarriedUnchanged(es[..k]);
      StateNext(es, k);
      assert es[..|es|] == es;
      var s, posts := StateAt(es, k), Posts(es[..k]);
      StillFine(es[..k], e);
      MorePosts(posts, if e.Post? then [(e.name, e.dest)] else [], s.lists);
      if Enabled(s, e) {
        if !e.Post? {
          NextChangeCarried(posts, s, e);
        }
        ChangeKeepsCarried(Posts(es), s.lists, ChangeOf(s, e));
      }
    }
  }

  lemma StillFine(es: seq<Event>, e: Event)
    ensures WorkersFine(Next(Run(Initial(), es), e))
  {
    RunKeeps(Initial(), es);
    NextFine(Run(Initial(), es), e);
  }

  // ------------------------------------------------------------ the cache

  /** What a step says about where `n` lives. */
  datatype News = Nothing | Gone | Told(host: Host)

  function NewsOf(s: State, e: Event, n: string): News {
    if !Enabled(s, e) then Nothing
    else if e.Learn? && e.name == n then Told(e.host)
    else if e.Apply? && s.handler.name == n && s.handler.reply.Found? then Told(s.handler.reply.host)
    else if e.ForgetHost? && s.phases[e.worker].name == n then Gone
    else Nothing
  }

  /** The last that was said about `n` was that it lives at `h`, in step `i`. */
  ghost predicate LastTold(es: seq<Event>, n: string, h: Host, i: int) {
    && 0 <= i < |es| && NewsOf(StateAt(es, i), es[i], n) == Told(h)
    && forall j :: i < j < |es| ==> NewsOf(StateAt(es, j), es[j], n) == Nothing
  }

  lemma CacheStep(s: State, e: Event, n: string)
    ensures var after, news := Next(s, e).cache, NewsOf(s, e, n);
            && (n in after <==> news.Told? || (news == Nothing && n in s.cache))
            && (n in after ==> after[n] == if news.Told? then news.host else if n in s.cache then s.cache[n] else after[n])
  {
  }

  lemma LastToldStep(es: seq<Event>, n: string, h: Host, i: int)
    requires es != []
    ensures LastTold(es, n, h, i) <==>
            var k := |es| - 1;
            var news := NewsOf(StateAt(es, k), es[k], n);
            (i == k && news == Told(h)) || (news == Nothing && LastTold(es[..k], n, h, i))
  {
    var k := |es| - 1;
    forall j | 0 <= j < k ensures StateAt(es[..k], j) == StateAt(es, j) && es[..k][j] == es[j] {
      StateOfFront(es, k, j);
    }
  }

  /** In every run the cache holds `h` for `n` exactly if `h` is the last address that
      an answer or a lookup gave for `n`, and it was not forgotten since. */
  lemma {:induction false} CacheExact(es: seq<Event>, n: string, h: Host)
    ensures var s := Run(Initial(), es);
            n in s.cache && s.cache[n] == h <==> exists i :: LastTold(es, n, h, i)
  {
    if es != [] {
      var k := |es| - 1;
      assert es[..|es|] == es;
      StateNext(es, k);
      CacheExact(es[..k], n, h);
      CacheStep(StateAt(es, k), es[k], n);
      LastToldExists(es, n, h);
    }
  }

  lemma LastToldExists(es: seq<Event>, n: string, h: Host)
    requires es != []
    ensures var k := |es| - 1;
            var news := NewsOf(StateAt(es, k), es[k], n);
            (exists i :: LastTold(es, n, h, i)) <==>
            news == Told(h) || (news == Nothing && exists i :: LastTold(es[..k], n, h, i))
  {
    var k := |es| - 1;
    var news := NewsOf(StateAt(es, k), es[k], n);
    if i :| LastTold(es, n, h, i) {
      LastToldStep(es, n, h, i);
    }
    if news == Told(h) {
      LastToldStep(es, n, h, k);
    } else if news == Nothing {
      if i :| LastTold(es[..k], n, h, i) {
        LastToldStep(es, n, h, i);
      }
    }
  }

  // ------------------------------------------------------------ where it connects

  /** The last step of worker `w` was step `i`. */
  ghost predicate LastAct(es: seq<Event>, w: string, i: int) {
    && 0 <= i < |es| && Enabled(StateAt(es, i), es[i]) && ActsOn(es[i], w)
    && forall j :: i < j < |es| ==> !(Enabled(StateAt(es, j), es[j]) && ActsOn(es[j], w))
  }

  /** What a worker is doing was decided by its last step. */
  lemma {:induction false} DecidedBy(es: seq<Event>, w: string) returns (i: nat)
    requires w in Run(Initial(), es).phases
    ensures LastAct(es, w, i) && w in Next(StateAt(es, i), es[i]).phases
    ensures Run(Initial(), es).phases[w] == Next(StateAt(es, i), es[i]).phases[w]
    ensures At(Run(Initial(), es).lists, Running(w)) == At(Next(StateAt(es, i), es[i]).lists, Running(w))
  {
    var k := |es| - 1;
    assert es != [];
    assert es[..|es|] == es;
    StateNext(es, k);
    var s, e := StateAt(es, k), es[k];
    if Enabled(s, e) && ActsOn(e, w) {
      i := k;
    } else {
      if Enabled(s, e) {
        OtherWorker(s, e, w);
        OtherPhase(s, e, w);
      }
      i := DecidedBy(es[..k], w);
      EarlierAct(es, w, i);
    }
  }

  lemma EarlierAct(es: seq<Event>, w: string, i: nat)
    requires es != [] && LastAct(es[..|es| - 1], w, i)
    requires !(Enabled(StateAt(es, |es| - 1), es[|es| - 1]) && ActsOn(es[|es| - 1], w))
    ensures LastAct(es, w, i) && StateAt(es[..|es| - 1], i) == StateAt(es, i) && es[..|es| - 1][i] == es[i]
  {
    var k := |es| - 1;
    forall j | 0 <= j < k ensures StateAt(es[..k], j) == StateAt(es, j) && es[..k][j] == es[j] {
      StateOfFront(es, k, j);
    }
  }

  lemma ConnectsAfterCheck(s: State, e: Event, w: string, h: Host)
    requires Enabled(s, e) && ActsOn(e, w) && WorkerFine(s, w)
    requires w in Next(s, e).phases && Next(s, e).phases[w] == Connect(h)
    ensures e == CheckCache(w) && At(Next(s, e).lists, Running(w)) == At(s.lists, Running(w)) != []
    ensures var t := At(s.lists, Running(w))[0];
            if t.name == "" then h == t.dest else t.name in s.cache && h == s.cache[t.name]
  {
  }

  /** In every run, where a worker is about to connect for request `t`: for a request
      by address that is the address it was posted with; for one by name the address
      last learnt for that name when the worker looked it up. */
  lemma ConnectExact(es: seq<Event>, w: string, h: Host) returns (i: nat, t: Task)
    requires w in Run(Initial(), es).phases && Run(Initial(), es).phases[w] == Connect(h)
    ensures LastAct(es, w, i) && es[i] == CheckCache(w)
    ensures At(Run(Initial(), es).lists, Running(w)) == [t]
    ensures t.id < |Posts(es)| && Posts(es)[t.id] == (t.name, t.dest)
    ensures if t.name == "" then h == t.dest else exists k :: LastTold(es[..i], t.name, h, k)
  {
    i := DecidedBy(es, w);
    RunKeeps(Initial(), es[..i]);
    RunKeeps(Initial(), es);
    var s := StateAt(es, i);
    assert WorkerFine(s, w) && WorkerFine(Run(Initial(), es), w);
    ConnectsAfterCheck(s, es[i], w, h);
    t := At(s.lists, Running(w))[0];
    CarriedUnchanged(es);
    assert Carried(Posts(es), At(Run(Initial(), es).lists, Running(w))[0]);
    if t.name != "" {
      CacheExact(es[..i], t.name, h);
    }
  }

  lemma GoneAfterFailure(s: State, e: Event, w: string, n: string)
    requires Enabled(s, e) && ActsOn(e, w) && w in Next(s, e).phases
    ensures Next(s, e).phases[w] == Forget(n) ==>
              e == Park(w) && s.phases[w] == Unreachable && Busy(s, w) && Current(s, w).name == n
    ensures Next(s, e).phases[w] == Unreachable ==>
              e == Deliver(w, NoConnection) && s.phases[w].Connect? && Busy(s, w) && Current(s, w).retry
  {
  }

  /** In every run an address is forgotten only by the worker that could not connect
      to it: its last step parked the request, the one before found no connection. */
  lemma ForgottenExact(es: seq<Event>, w: string, n: string) returns (i: nat, j: nat)
    requires w in Run(Initial(), es).phases && Run(Initial(), es).phases[w] == Forget(n)
    ensures LastAct(es, w, i) && es[i] == Park(w)
    ensures LastAct(es[..i], w, j) && es[j] == Deliver(w, NoConnection) && w in StateAt(es, j).phases && StateAt(es, j).phases[w].Connect?
  {
    i := DecidedBy(es, w);
    GoneAfterFailure(StateAt(es, i), es[i], w, n);
    j := DecidedBy(es[..i], w);
    StateOfFront(es, i, j);
    GoneAfterFailure(StateAt(es, j), es[j], w, n);
  }

  /** Two names share a worker exactly if both are short or end alike. */
  lemma SharedWorker(a: string, b: string)
    ensures WorkerOf(a) == WorkerOf(b) <==>
            (|a| <= 2 && |b| <= 2) || (|a| > 2 && |b| > 2 && a[|a| - 2] == b[|b| - 2] && a[|a| - 1] == b[|b| - 1])
  {
  }
}
