/** The registry of the message bus server (Core/msgbus_server.cpp): which hosts
    offer a service, which connections are active for it, and which host each
    connection registered. The three maps are guarded by one lock; a closing
    connection takes it twice, so its removal is two steps here. */
module Registry {

  datatype Host = Host(ip: string, port: nat, state: nat)

  /** `ClientHostIsEqual`: the busy state does not count. */
  predicate SameAddr(a: Host, b: Host) { a.ip == b.ip && a.port == b.port }

  /** `available_services`, `active_clients` (connection to descriptor) and
      `tcp_services_map`. */
  datatype Db = Db(services: map<string, seq<Host>>, active: map<string, map<nat, int>>, tcp: map<int, Host>)

  predicate Listed(hosts: seq<Host>, h: Host) {
    exists i :: 0 <= i < |hosts| && SameAddr(hosts[i], h)
  }

  /** The first host with the address of `h`, or the length. */
  function Find(hosts: seq<Host>, h: Host): (i: nat)
    ensures i <= |hosts|
    ensures i < |hosts| ==> SameAddr(hosts[i], h)
    ensures forall j :: 0 <= j < i ==> !SameAddr(hosts[j], h)
  {
    if hosts == [] || SameAddr(hosts[0], h) then 0 else 1 + Find(hosts[1..], h)
  }

  // ------------------------------------------------- the locked blocks

  function Holders(db: Db, name: string): map<nat, int> {
    if name in db.active then db.active[name] else map[]
  }

  /** Record `conn` as an active connection that registered `host`. */
  function Attach(db: Db, conn: nat, fd: int, name: string, host: Host): Db {
    db.(active := db.active[name := Holders(db, name)[conn := fd]], tcp := db.tcp[fd := host])
  }

  /** A registration that changes who is active: not one that only updates the
      state of a known host, nor a second one without a port. */
  predicate Records(db: Db, name: string, host: Host) {
    && name != ""
    && if name in db.services then !Listed(db.services[name], host) else host.port != 0 || name !in db.active
  }

  /** `process_register_req` once the host's address is known. */
  function Register(db: Db, conn: nat, fd: int, name: string, host: Host): Db {
    if name == "" then db
    else if name in db.services then
      var i := Find(db.services[name], host);
      if i < |db.services[name]| then
        var known := db.services[name][i];
        db.(services := db.services[name := db.services[name][i := known.(state := host.state)]])
      else Attach(db.(services := db.services[name := db.services[name] + [host]]), conn, fd, name, host)
    else if host.port != 0 then
      Attach(db.(services := db.services[name := [host]]), conn, fd, name, host)
    else if name in db.active then db
    else Attach(db, conn, fd, name, host)
  }

  /** `unregister_client_from_service`. */
  function Unregister(db: Db, name: string, host: Host): Db {
    if name !in db.services then db
    else
      var hosts := db.services[name];
      var i := Find(hosts, host);
      if i == |hosts| then db
      else
        var left := hosts[..i] + hosts[i + 1..];
        if left == [] then db.(services := db.services - {name}) else db.(services := db.services[name := left])
  }

  predicate Holds(db: Db, name: string, conn: nat) { name in db.active && conn in db.active[name] }

  /** The first half of `server_onClose`, for a connection found under `name`. */
  function Detach(db: Db, conn: nat, fd: int, name: string): Db
    requires Holds(db, name, conn)
  {
    var left := db.active[name] - {conn};
    db.(active := if left == map[] then db.active - {name} else db.active[name := left], tcp := db.tcp - {fd})
  }

  /** `tcp_services_map[fd]`, which yields a default host for an unknown key. */
  function HostOf(db: Db, fd: int): Host { if fd in db.tcp then db.tcp[fd] else Host("", 0, 0) }

  // --------------------------------------------------- the whole server

  /** The registry, the open connections with their descriptors, and the closes
      between their two halves. `passed` are the requests that have passed the gate and
      not yet acted. `accepted` logs the connections of recorded registrations,
      `granted` and `acted` the requests that passed and that acted. */
  datatype Server = Server(db: Db, open: map<nat, int>, closing: multiset<(string, Host)>, passed: multiset<(nat, Ask)>,
                           accepted: set<nat>, granted: seq<(nat, Ask)>, acted: seq<(nat, Ask)>)

  /** The requests that only registered connections may make. */
  datatype Ask = Lookup(dest: string) | Relay(dest: string) | Unregistration(name: string, host: Host)

  function Start(): Server { Server(Db(map[], map[], map[]), map[], multiset{}, multiset{}, {}, [], []) }

  datatype Event =
    | Connect(conn: nat, fd: int)
    | RegisterReq(conn: nat, name: string, host: Host)
    | Request(conn: nat, ask: Ask)     // the gate, which takes no lock
    | Act(conn: nat, ask: Ask)         // what comes of it, under the lock
    | CloseFirst(conn: nat, name: string)
    | CloseSecond(name: string, host: Host)

  /** Descriptors as `GetFD` reports them: -1 once the socket is closed. */
  function Fd(s: Server, conn: nat): int { if conn in s.open then s.open[conn] else -1 }

  /** `check_register_client`. */
  predicate Registered(s: Server, conn: nat) { Fd(s, conn) in s.db.tcp }

  /** `CloseFirst` names the service under which the loop finds the connection; it
      finds one whenever there is one. */
  predicate Possible(s: Server, e: Event) {
    match e
    case Connect(c, fd) => c !in s.open && fd !in s.open.Values && fd >= 0
    case CloseFirst(c, name) => c in s.open && (Holds(s.db, name, c) || forall n :: n in s.db.active ==> c !in s.db.active[n])
    case CloseSecond(name, host) => (name, host) in s.closing
    case Act(c, ask) => (c, ask) in s.passed
    case _ => true
  }

  function Next(s: Server, e: Event): Server
    requires Possible(s, e)
  {
    match e
    case Connect(c, fd) => s.(open := s.open[c := fd], accepted := s.accepted - {c})
    case RegisterReq(c, name, host) =>
      s.(db := Register(s.db, c, Fd(s, c), name, host),
         accepted := if Records(s.db, name, host) then s.accepted + {c} else s.accepted)
    case Request(c, ask) =>
      if !Registered(s, c) then s
      else s.(passed := s.passed + multiset{(c, ask)}, granted := s.granted + [(c, ask)])
    case Act(c, ask) =>
      s.(db := if ask.Unregistration? && ask.name != "" then Unregister(s.db, ask.name, ask.host) else s.db,
         passed := s.passed - multiset{(c, ask)}, acted := s.acted + [(c, ask)])
    case CloseFirst(c, name) =>
      if Holds(s.db, name, c) then
        s.(db := Detach(s.db, c, s.open[c], name), open := s.open - {c},
           closing := s.closing + multiset{(name, HostOf(s.db, s.open[c]))})
      else s.(open := s.open - {c}, closing := s.closing + multiset{("", Host("", 0, 0))})
    case CloseSecond(name, host) =>
      s.(db := Unregister(s.db, name, host), closing := s.closing - multiset{(name, host)})
  }

  // ----------------------------------------------------- consistency

  ghost predicate Distinct(hosts: seq<Host>) {
    forall i, j :: 0 <= i < j < |hosts| ==> !SameAddr(hosts[i], hosts[j])
  }

  /** `conn` is active for `name` and registered the address of `h`. */
  ghost predicate Backs(s: Server, conn: nat, name: string, h: Host) {
    Holds(s.db, name, conn) && Fd(s, conn) in s.db.tcp && SameAddr(s.db.tcp[Fd(s, conn)], h)
  }

  ghost predicate ClosingBacks(s: Server, name: string, h: Host) {
    exists g :: (name, g) in s.closing && SameAddr(g, h)
  }

  ghost predicate Backed(s: Server, name: string, h: Host) {
    (exists c :: Backs(s, c, name, h)) || ClosingBacks(s, name, h)
  }

  ghost predicate ServicesOk(s: Server) {
    && "" !in s.db.services
    && forall n :: n in s.db.services ==> s.db.services[n] != [] && Distinct(s.db.services[n])
  }

  ghost predicate ActiveOk(s: Server) {
    && (forall n :: n in s.db.active ==> s.db.active[n] != map[])
    && (forall n, c :: Holds(s.db, n, c) ==> c in s.open && s.db.active[n][c] == s.open[c] && c in s.accepted)
    && (forall n, m, c :: Holds(s.db, n, c) && Holds(s.db, m, c) ==> n == m)
  }

  ghost predicate OpenOk(s: Server) {
    && (forall c, d :: c in s.open && d in s.open && s.open[c] == s.open[d] ==> c == d)
    && (forall c :: c in s.open ==> s.open[c] >= 0)
  }

  /** The descriptors with a registered host are those of active connections. */
  ghost predicate TcpOk(s: Server) {
    && (forall n, c :: Holds(s.db, n, c) ==> Fd(s, c) in s.db.tcp)
    && (forall fd :: fd in s.db.tcp ==> exists n, c :: Holds(s.db, n, c) && Fd(s, c) == fd)
  }

  ghost predicate AllBacked(s: Server) {
    forall n, i :: n in s.db.services && 0 <= i < |s.db.services[n]| ==> Backed(s, n, s.db.services[n][i])
  }

  ghost predicate Consistent(s: Server) {
    ServicesOk(s) && ActiveOk(s) && OpenOk(s) && TcpOk(s) && AllBacked(s)
  }

  // ----------------------------------------------------- registration

  ghost predicate BackedByOther(s: Server, conn: nat, name: string, h: Host) {
    (exists d :: d != conn && Backs(s, d, name, h)) || ClosingBacks(s, name, h)
  }

  /** What the server relies on when a registration is recorded: the connection is
      open, active for no other service, and the address it registered before, if
      it is still advertised, is the same or somebody else's too. */
  ghost predicate Fits(s: Server, conn: nat, name: string, host: Host) {
    Records(s.db, name, host) ==>
      && conn in s.open
      && (forall n :: Holds(s.db, n, conn) ==> n == name)
      && (Holds(s.db, name, conn) && name in s.db.services ==>
            var before := HostOf(s.db, Fd(s, conn));
            SameAddr(before, host) || !Listed(s.db.services[name], before) || BackedByOther(s, conn, name, before))
  }

  lemma FindListed(hosts: seq<Host>, h: Host)
    ensures Find(hosts, h) < |hosts| <==> Listed(hosts, h)
  {
  }

  lemma UpdateStateKeeps(s: Server, c: nat, name: string, host: Host)
    requires Consistent(s) && !Records(s.db, name, host)
    ensures Consistent(Next(s, RegisterReq(c, name, host)))
  {
    var t := Next(s, RegisterReq(c, name, host));
    if name != "" && name in s.db.services {
      FindListed(s.db.services[name], host);
      SameConnections(s, t);
      assert ServicesOk(t) by { StateKeepsDistinct(s.db.services[name], Find(s.db.services[name], host), host.state); }
      forall n, i | n in t.db.services && 0 <= i < |t.db.services[n]|
        ensures Backed(t, n, t.db.services[n][i])
      {
        assert SameAddr(s.db.services[n][i], t.db.services[n][i]);
        SameBacking(s, t, n, s.db.services[n][i], t.db.services[n][i]);
      }
    }
  }

  lemma StateKeepsDistinct(hosts: seq<Host>, i: nat, state: nat)
    requires i < |hosts| && Distinct(hosts)
    ensures Distinct(hosts[i := hosts[i].(state := state)])
  {
  }

  lemma SameConnections(s: Server, t: Server)
    requires ActiveOk(s) && OpenOk(s) && TcpOk(s)
    requires s.db.active == t.db.active && s.db.tcp == t.db.tcp && s.open == t.open && s.accepted == t.accepted
    ensures ActiveOk(t) && OpenOk(t) && TcpOk(t)
  {
    assert forall n, c :: Holds(t.db, n, c) <==> Holds(s.db, n, c);
    assert forall c :: Fd(t, c) == Fd(s, c);
    forall fd | fd in t.db.tcp ensures exists n, c :: Holds(t.db, n, c) && Fd(t, c) == fd {
      var n, c :| Holds(s.db, n, c) && Fd(s, c) == fd;
      assert Holds(t.db, n, c);
    }
  }

  /** Backing depends only on who is active, on their hosts and on the closes. */
  lemma SameBacking(s: Server, t: Server, n: string, h: Host, g: Host)
    requires Backed(s, n, h) && SameAddr(h, g)
    requires s.db.active == t.db.active && s.db.tcp == t.db.tcp && s.open == t.open && s.closing == t.closing
    ensures Backed(t, n, g)
  {
    if c :| Backs(s, c, n, h) {
      assert Backs(t, c, n, g);
    } else {
      var x :| (n, x) in s.closing && SameAddr(x, h);
      assert (n, x) in t.closing && SameAddr(x, g);
    }
  }

  /** After a recorded registration: the services, who is active and where. */
  lemma RecordedShape(s: Server, c: nat, name: string, host: Host)
    requires Records(s.db, name, host)
    ensures var t := Next(s, RegisterReq(c, name, host));
            && t.db.active == s.db.active[name := Holders(s.db, name)[c := Fd(s, c)]]
            && t.db.tcp == s.db.tcp[Fd(s, c) := host]
            && t.open == s.open && t.closing == s.closing && t.accepted == s.accepted + {c}
            && t.db.services == (if name in s.db.services then s.db.services[name := s.db.services[name] + [host]]
                                 else if host.port != 0 then s.db.services[name := [host]] else s.db.services)
            && forall n, d :: Holds(t.db, n, d) <==> Holds(s.db, n, d) || (n == name && d == c)
  {
    if name in s.db.services { FindListed(s.db.services[name], host); }
  }

  lemma RecordedKeepsActive(s: Server, c: nat, name: string, host: Host)
    requires Consistent(s) && Records(s.db, name, host) && c in s.open
    requires forall n :: Holds(s.db, n, c) ==> n == name
    ensures var t := Next(s, RegisterReq(c, name, host)); ServicesOk(t) && ActiveOk(t) && OpenOk(t) && TcpOk(t)
  {
    RecordedServices(s, c, name, host);
    RecordedActive(s, c, name, host);
    RecordedTcp(s, c, name, host);
  }

  lemma RecordedActive(s: Server, c: nat, name: string, host: Host)
    requires Consistent(s) && Records(s.db, name, host) && c in s.open
    requires forall n :: Holds(s.db, n, c) ==> n == name
    ensures var t := Next(s, RegisterReq(c, name, host)); ActiveOk(t) && OpenOk(t)
  {
    var t := Next(s, RegisterReq(c, name, host));
    RecordedShape(s, c, name, host);
    forall n | n in t.db.active ensures t.db.active[n] != map[] {
      if n == name {
        assert c in t.db.active[n];
      }
    }
    forall n, d | Holds(t.db, n, d) ensures d in t.open && t.db.active[n][d] == t.open[d] && d in t.accepted {
      assert Holds(s.db, n, d) || (n == name && d == c);
    }
    forall n, m, d | Holds(t.db, n, d) && Holds(t.db, m, d) ensures n == m {
      assert Holds(s.db, n, d) || (n == name && d == c);
      assert Holds(s.db, m, d) || (m == name && d == c);
    }
  }

  lemma RecordedServices(s: Server, c: nat, name: string, host: Host)
    requires Consistent(s) && Records(s.db, name, host)
    ensures ServicesOk(Next(s, RegisterReq(c, name, host)))
  {
    var t := Next(s, RegisterReq(c, name, host));
    RecordedShape(s, c, name, host);
    forall n | n in t.db.services ensures Distinct(t.db.services[n]) {
      if name in s.db.services && n == name {
        FindListed(s.db.services[name], host);
      }
    }
  }

  lemma RecordedTcp(s: Server, c: nat, name: string, host: Host)
    requires Consistent(s) && Records(s.db, name, host) && c in s.open
    ensures TcpOk(Next(s, RegisterReq(c, name, host)))
  {
    var t := Next(s, RegisterReq(c, name, host));
    RecordedShape(s, c, name, host);
    forall fd | fd in t.db.tcp ensures exists n, d :: Holds(t.db, n, d) && Fd(t, d) == fd {
      if fd == Fd(s, c) {
        assert Holds(t.db, name, c);
      } else {
        var n, d :| Holds(s.db, n, d) && Fd(s, d) == fd;
        assert Holds(t.db, n, d) && Fd(t, d) == fd;
      }
    }
  }

  lemma BackingAfter(s: Server, c: nat, name: string, host: Host, n: string, h: Host)
    requires Consistent(s) && Records(s.db, name, host) && c in s.open
    ensures var t := Next(s, RegisterReq(c, name, host));
            Backed(t, n, h) <==> BackedByOther(s, c, n, h) || (n == name && SameAddr(host, h))
                                 || (Holds(s.db, n, c) && SameAddr(host, h))
  {
    var t := Next(s, RegisterReq(c, name, host));
    RecordedShape(s, c, name, host);
    if n == name && SameAddr(host, h) { assert Backs(t, c, n, h); }
    if Holds(s.db, n, c) && SameAddr(host, h) { assert Backs(t, c, n, h); }
    if d :| d != c && Backs(s, d, n, h) {
      assert s.open[d] != s.open[c];
      assert Backs(t, d, n, h);
    }
    if d :| Backs(t, d, n, h) {
      if d != c {
        assert d in s.open && s.open[d] != s.open[c];
        assert Backs(s, d, n, h);
      }
    }
  }

  lemma BackedSplit(s: Server, c: nat, n: string, h: Host)
    ensures Backed(s, n, h) <==> Backs(s, c, n, h) || BackedByOther(s, c, n, h)
  {
    if d :| Backs(s, d, n, h) {
      assert d == c || Backs(s, d, n, h);
    }
  }

  lemma RecordedKeepsBacking(s: Server, c: nat, name: string, host: Host)
    requires Consistent(s) && Records(s.db, name, host) && Fits(s, c, name, host)
    ensures AllBacked(Next(s, RegisterReq(c, name, host)))
  {
    var t := Next(s, RegisterReq(c, name, host));
    RecordedShape(s, c, name, host);
    forall n, i | n in t.db.services && 0 <= i < |t.db.services[n]|
      ensures Backed(t, n, t.db.services[n][i])
    {
      var h := t.db.services[n][i];
      BackingAfter(s, c, name, host, n, h);
      if !(n == name && h == host) {
        assert n in s.db.services && h == s.db.services[n][i];
        BackedSplit(s, c, n, h);
        if Backs(s, c, n, h) && !SameAddr(host, h) {
          var before := HostOf(s.db, Fd(s, c));
          assert Listed(s.db.services[name], before);
          SameAddrBacking(s, c, name, before, h);
        }
      }
    }
  }

  lemma SameAddrBacking(s: Server, c: nat, n: string, a: Host, b: Host)
    requires SameAddr(a, b) && BackedByOther(s, c, n, a)
    ensures BackedByOther(s, c, n, b)
  {
    if d :| d != c && Backs(s, d, n, a) {
      assert Backs(s, d, n, b);
    } else {
      var g :| (n, g) in s.closing && SameAddr(g, a);
      assert (n, g) in s.closing && SameAddr(g, b);
    }
  }

  lemma UnfitBreaks(s: Server, c: nat, name: string, host: Host)
    requires Consistent(s) && !Fits(s, c, name, host)
    ensures !Consistent(Next(s, RegisterReq(c, name, host)))
  {
    var t := Next(s, RegisterReq(c, name, host));
    RecordedShape(s, c, name, host);
    assert Holds(t.db, name, c);
    if c !in s.open {
    } else if n :| Holds(s.db, n, c) && n != name {
      assert Holds(t.db, n, c);
    } else {
      var before := HostOf(s.db, Fd(s, c));
      var i :| 0 <= i < |s.db.services[name]| && SameAddr(s.db.services[name][i], before);
      var h := s.db.services[name][i];
      assert t.db.services[name][i] == h;
      BackingAfter(s, c, name, host, name, h);
      if BackedByOther(s, c, name, h) { SameAddrBacking(s, c, name, h, before); }
    }
  }

  /** A registration keeps the registry consistent if and only if it fits. */
  lemma RegisterExact(s: Server, c: nat, name: string, host: Host)
    requires Consistent(s)
    ensures Consistent(Next(s, RegisterReq(c, name, host))) <==> Fits(s, c, name, host)
  {
    if !Fits(s, c, name, host) {
      UnfitBreaks(s, c, name, host);
    } else if Records(s.db, name, host) {
      RecordedKeepsActive(s, c, name, host);
      RecordedKeepsBacking(s, c, name, host);
    } else {
      UpdateStateKeeps(s, c, name, host);
    }
  }

  // ----------------------------------------------------- the other steps

  lemma RemoveKeepsDistinct(hosts: seq<Host>, i: nat)
    requires i < |hosts| && Distinct(hosts)
    ensures Distinct(hosts[..i] + hosts[i + 1..])
    ensures forall h :: h in hosts[..i] + hosts[i + 1..] ==> h in hosts && !SameAddr(h, hosts[i])
  {
    var left := hosts[..i] + hosts[i + 1..];
    assert forall j :: 0 <= j < |left| ==> left[j] == hosts[if j < i then j else j + 1];
  }

  lemma RemoveOne(hosts: seq<Host>, i: nat, h: Host)
    requires i < |hosts|
    ensures h in hosts[..i] + hosts[i + 1..] <==> h in hosts[..i] || h in hosts[i + 1..]
    ensures h in hosts <==> h in hosts[..i] || h in hosts[i + 1..] || h == hosts[i]
  {
    assert hosts == hosts[..i] + ([hosts[i]] + hosts[i + 1..]);
  }

  lemma RemoveExact(hosts: seq<Host>, host: Host, h: Host)
    requires Distinct(hosts)
    ensures var i := Find(hosts, host);
            if i == |hosts| then h in hosts ==> !SameAddr(h, host)
            else h in hosts[..i] + hosts[i + 1..] <==> h in hosts && !SameAddr(h, host)
  {
    var i := Find(hosts, host);
    if i < |hosts| {
      RemoveOne(hosts, i, h);
      RemoveKeepsDistinct(hosts, i);
    } else if h in hosts {
      var j :| 0 <= j < |hosts| && hosts[j] == h;
    }
  }

  ghost predicate HostsOk(db: Db) {
    forall m :: m in db.services ==> Distinct(db.services[m]) && db.services[m] != []
  }

  lemma UnregisterShape(db: Db, name: string, host: Host)
    requires HostsOk(db)
    ensures var t := Unregister(db, name, host);
            HostsOk(t) && t.services.Keys <= db.services.Keys && t.active == db.active && t.tcp == db.tcp
  {
    if name in db.services {
      var hosts := db.services[name];
      var i := Find(hosts, host);
      if i < |hosts| { RemoveKeepsDistinct(hosts, i); }
    }
  }

  /** Unregistering removes exactly the entries with that address. */
  lemma UnregisterExact(db: Db, name: string, host: Host, n: string, h: Host)
    requires HostsOk(db)
    ensures var t := Unregister(db, name, host);
            n in t.services && h in t.services[n] <==>
            n in db.services && h in db.services[n] && !(n == name && SameAddr(h, host))
  {
    if name in db.services {
      RemoveExact(db.services[name], host, h);
    }
  }

  ghost predicate AllBackedIn(s: Server) {
    forall n, h :: n in s.db.services && h in s.db.services[n] ==> Backed(s, n, h)
  }

  lemma AllBackedForms(s: Server)
    ensures AllBacked(s) <==> AllBackedIn(s)
  {
    if AllBacked(s) {
      forall n, h | n in s.db.services && h in s.db.services[n] ensures Backed(s, n, h) {
        var i :| 0 <= i < |s.db.services[n]| && s.db.services[n][i] == h;
      }
    }
    if AllBackedIn(s) {
      forall n, i | n in s.db.services && 0 <= i < |s.db.services[n]| ensures Backed(s, n, s.db.services[n][i]) {
        assert s.db.services[n][i] in s.db.services[n];
      }
    }
  }

  lemma UnregisterKeeps(s: Server, name: string, host: Host)
    requires Consistent(s)
    ensures Consistent(s.(db := Unregister(s.db, name, host)))
  {
    var t := s.(db := Unregister(s.db, name, host));
    UnregisterShape(s.db, name, host);
    SameConnections(s, t);
    AllBackedForms(s);
    forall n, h | n in t.db.services && h in t.db.services[n] ensures Backed(t, n, h) {
      UnregisterExact(s.db, name, host, n, h);
      SameBacking(s, t, n, h, h);
    }
    AllBackedForms(t);
  }

  /** Consistency does not depend on who has passed the gate. */
  lemma SameRegistry(s: Server, t: Server)
    requires Consistent(s)
    requires s.db == t.db && s.open == t.open && s.closing == t.closing && s.accepted == t.accepted
    ensures Consistent(t)
  {
    SameConnections(s, t);
    forall n, i | n in t.db.services && 0 <= i < |t.db.services[n]| ensures Backed(t, n, t.db.services[n][i]) {
      SameBacking(s, t, n, t.db.services[n][i], t.db.services[n][i]);
    }
  }

  lemma CloseSecondKeeps(s: Server, name: string, host: Host)
    requires Consistent(s) && (name, host) in s.closing
    ensures Consistent(Next(s, CloseSecond(name, host)))
  {
    var t := Next(s, CloseSecond(name, host));
    UnregisterShape(s.db, name, host);
    SameConnections(s, t);
    AllBackedForms(s);
    forall n, h | n in t.db.services && h in t.db.services[n] ensures Backed(t, n, h) {
      UnregisterExact(s.db, name, host, n, h);
      if c :| Backs(s, c, n, h) {
        assert Backs(t, c, n, h);
      } else {
        var g :| (n, g) in s.closing && SameAddr(g, h);
        assert (n, g) != (name, host);
        assert (n, g) in t.closing && SameAddr(g, h);
      }
    }
    AllBackedForms(t);
  }

  lemma ConnectKeeps(s: Server, c: nat, fd: int)
    requires Consistent(s) && Possible(s, Connect(c, fd))
    ensures Consistent(Next(s, Connect(c, fd)))
  {
    var t := Next(s, Connect(c, fd));
    assert forall n, d :: Holds(t.db, n, d) <==> Holds(s.db, n, d);
    assert forall n, d :: Holds(s.db, n, d) ==> d != c && Fd(t, d) == Fd(s, d);
    assert forall d :: d in s.open ==> s.open[d] != fd;
    forall x | x in t.db.tcp ensures exists n, d :: Holds(t.db, n, d) && Fd(t, d) == x {
      var n, d :| Holds(s.db, n, d) && Fd(s, d) == x;
      assert Holds(t.db, n, d) && Fd(t, d) == x;
    }
    forall n, i | n in t.db.services && 0 <= i < |t.db.services[n]| ensures Backed(t, n, t.db.services[n][i]) {
      var h := s.db.services[n][i];
      if d :| Backs(s, d, n, h) {
        assert Backs(t, d, n, h);
      } else {
        var g :| (n, g) in s.closing && SameAddr(g, h);
        assert (n, g) in t.closing && SameAddr(g, h);
      }
    }
  }

  /** After the first half of a close nobody else has changed. */
  lemma DetachShape(s: Server, c: nat, name: string)
    requires Consistent(s) && Possible(s, CloseFirst(c, name)) && Holds(s.db, name, c)
    ensures var t := Next(s, CloseFirst(c, name));
            && (forall n, d :: Holds(t.db, n, d) <==> Holds(s.db, n, d) && d != c)
            && (forall n, d :: Holds(t.db, n, d) ==> t.db.active[n][d] == s.db.active[n][d])
            && (forall n :: n in t.db.active ==> t.db.active[n] != map[])
            && t.db.services == s.db.services
  {
    var t := Next(s, CloseFirst(c, name));
    forall n, d ensures Holds(t.db, n, d) <==> Holds(s.db, n, d) && d != c {
      if Holds(s.db, n, c) { assert n == name; }
      if n == name && Holds(s.db, n, d) && d != c {
        assert d in s.db.active[name] - {c};
      }
    }
  }

  lemma CloseFirstKeepsMaps(s: Server, c: nat, name: string)
    requires Consistent(s) && Possible(s, CloseFirst(c, name)) && Holds(s.db, name, c)
    ensures var t := Next(s, CloseFirst(c, name)); ServicesOk(t) && ActiveOk(t) && OpenOk(t) && TcpOk(t)
  {
    DetachShape(s, c, name);
    CloseFirstTcp(s, c, name);
  }

  lemma CloseFirstTcp(s: Server, c: nat, name: string)
    requires Consistent(s) && Possible(s, CloseFirst(c, name)) && Holds(s.db, name, c)
    ensures TcpOk(Next(s, CloseFirst(c, name)))
  {
    var t := Next(s, CloseFirst(c, name));
    DetachShape(s, c, name);
    assert forall n, d :: Holds(t.db, n, d) ==> Fd(t, d) == Fd(s, d) && Fd(s, d) != s.open[c];
    forall x | x in t.db.tcp ensures exists n, d :: Holds(t.db, n, d) && Fd(t, d) == x {
      var n, d :| Holds(s.db, n, d) && Fd(s, d) == x;
      assert Holds(t.db, n, d) && Fd(t, d) == x;
    }
  }

  lemma CloseFirstKeeps(s: Server, c: nat, name: string)
    requires Consistent(s) && Possible(s, CloseFirst(c, name))
    ensures Consistent(Next(s, CloseFirst(c, name)))
  {
    var t := Next(s, CloseFirst(c, name));
    if Holds(s.db, name, c) {
      CloseFirstKeepsMaps(s, c, name);
      DetachShape(s, c, name);
    } else {
      assert forall n, d :: Holds(t.db, n, d) <==> Holds(s.db, n, d);
      assert forall n, d :: Holds(s.db, n, d) ==> d != c && Fd(t, d) == Fd(s, d);
      forall x | x in t.db.tcp ensures exists n, d :: Holds(t.db, n, d) && Fd(t, d) == x {
        var n, d :| Holds(s.db, n, d) && Fd(s, d) == x;
        assert Holds(t.db, n, d) && Fd(t, d) == x;
      }
    }
    forall n, i | n in t.db.services && 0 <= i < |t.db.services[n]| ensures Backed(t, n, t.db.services[n][i]) {
      CloseFirstBacking(s, c, name, n, s.db.services[n][i]);
    }
  }

  lemma CloseFirstBacking(s: Server, c: nat, name: string, n: string, h: Host)
    requires Consistent(s) && Possible(s, CloseFirst(c, name)) && Backed(s, n, h)
    ensures Backed(Next(s, CloseFirst(c, name)), n, h)
  {
    var t := Next(s, CloseFirst(c, name));
    if d :| Backs(s, d, n, h) {
      if d == c {
        assert n == name;
        var g := HostOf(s.db, s.open[c]);
        assert (n, g) in t.closing && SameAddr(g, h);
      } else {
        assert s.open[d] != s.open[c];
        if Holds(s.db, name, c) { DetachShape(s, c, name); }
        assert Backs(t, d, n, h);
      }
    } else {
      var g :| (n, g) in s.closing && SameAddr(g, h);
      assert (n, g) in t.closing && SameAddr(g, h);
    }
  }

  lemma NextKeeps(s: Server, e: Event)
    requires Consistent(s) && Possible(s, e)
    requires e.RegisterReq? ==> Fits(s, e.conn, e.name, e.host)
    ensures Consistent(Next(s, e))
  {
    match e
    case Connect(c, fd) => ConnectKeeps(s, c, fd);
    case RegisterReq(c, name, host) => RegisterExact(s, c, name, host);
    case Request(c, ask) => SameRegistry(s, Next(s, e));
    case Act(c, ask) =>
      if ask.Unregistration? && ask.name != "" {
        UnregisterKeeps(s, ask.name, ask.host);
        SameRegistry(s.(db := Unregister(s.db, ask.name, ask.host)), Next(s, e));
      } else {
        SameRegistry(s, Next(s, e));
      }
    case CloseFirst(c, name) => CloseFirstKeeps(s, c, name);
    case CloseSecond(name, host) => CloseSecondKeeps(s, name, host);
  }

  // ----------------------------------------------------------- whole runs

  predicate RunPossible(s: Server, es: seq<Event>)
    decreases |es|
  {
    es == [] || (Possible(s, es[0]) && RunPossible(Next(s, es[0]), es[1..]))
  }

  function Run(s: Server, es: seq<Event>): Server
    requires RunPossible(s, es)
    decreases |es|
  {
    if es == [] then s else Run(Next(s, es[0]), es[1..])
  }

  /** The service and address a connection stands for. */
  datatype Identity = Identity(name: string, ip: string, port: nat)

  /** Requests run while their connection is open, and every connection registers
      one service under one address. */
  predicate Disciplined(who: nat -> Identity, s: Server, es: seq<Event>)
    requires RunPossible(s, es)
    decreases |es|
  {
    es == [] ||
    (&& (es[0].RegisterReq? ==>
           && es[0].conn in s.open
           && Identity(es[0].name, es[0].host.ip, es[0].host.port) == who(es[0].conn))
     && Disciplined(who, Next(s, es[0]), es[1..]))
  }

  /** Active connections are active as who they are. */
  ghost predicate AsDeclared(who: nat -> Identity, s: Server) {
    forall n, c :: Holds(s.db, n, c) ==>
      n == who(c).name && var h := HostOf(s.db, Fd(s, c)); h.ip == who(c).ip && h.port == who(c).port
  }

  lemma DeclaredFits(who: nat -> Identity, s: Server, c: nat, name: string, host: Host)
    requires Consistent(s) && AsDeclared(who, s) && c in s.open
    requires Identity(name, host.ip, host.port) == who(c)
    ensures Fits(s, c, name, host)
  {
  }

  lemma NextKeepsDeclared(who: nat -> Identity, s: Server, e: Event)
    requires Consistent(s) && AsDeclared(who, s) && Possible(s, e)
    requires e.RegisterReq? ==> e.conn in s.open && Identity(e.name, e.host.ip, e.host.port) == who(e.conn)
    ensures AsDeclared(who, Next(s, e))
  {
    match e
    case Connect(c, fd) => ConnectKeepsDeclared(who, s, c, fd);
    case RegisterReq(c, name, host) => RegisterKeepsDeclared(who, s, c, name, host);
    case CloseFirst(c, name) => CloseKeepsDeclared(who, s, c, name);
    case Request(c, ask) => StillDeclared(who, s, Next(s, e));
    case Act(c, ask) =>
      if ask.Unregistration? { UnregisterFrame(s.db, ask.name, ask.host); }
      StillDeclared(who, s, Next(s, e));
    case CloseSecond(name, host) =>
      UnregisterFrame(s.db, name, host);
      StillDeclared(who, s, Next(s, e));
  }

  /** Connections that stay active with their host stay as declared. */
  lemma StillDeclared(who: nat -> Identity, s: Server, t: Server)
    requires AsDeclared(who, s)
    requires forall n, c :: Holds(t.db, n, c) ==> Holds(s.db, n, c) && HostOf(t.db, Fd(t, c)) == HostOf(s.db, Fd(s, c))
    ensures AsDeclared(who, t)
  {
  }

  lemma ConnectKeepsDeclared(who: nat -> Identity, s: Server, c: nat, fd: int)
    requires Consistent(s) && AsDeclared(who, s) && Possible(s, Connect(c, fd))
    ensures AsDeclared(who, Next(s, Connect(c, fd)))
  {
    assert forall n, d :: Holds(s.db, n, d) ==> d != c;
    StillDeclared(who, s, Next(s, Connect(c, fd)));
  }

  lemma RegisterKeepsDeclared(who: nat -> Identity, s: Server, c: nat, name: string, host: Host)
    requires Consistent(s) && AsDeclared(who, s) && c in s.open
    requires Identity(name, host.ip, host.port) == who(c)
    ensures AsDeclared(who, Next(s, RegisterReq(c, name, host)))
  {
    if Records(s.db, name, host) {
      RecordedShape(s, c, name, host);
      assert forall n, d :: Holds(s.db, n, d) && d != c ==> Fd(s, d) != Fd(s, c);
    } else {
      UnrecordedFrame(s.db, c, Fd(s, c), name, host);
      StillDeclared(who, s, Next(s, RegisterReq(c, name, host)));
    }
  }

  lemma UnrecordedFrame(db: Db, c: nat, fd: int, name: string, host: Host)
    requires !Records(db, name, host)
    ensures Register(db, c, fd, name, host).active == db.active && Register(db, c, fd, name, host).tcp == db.tcp
  {
    if name in db.services {
      FindListed(db.services[name], host);
    }
  }

  lemma CloseKeepsDeclared(who: nat -> Identity, s: Server, c: nat, name: string)
    requires Consistent(s) && AsDeclared(who, s) && Possible(s, CloseFirst(c, name))
    ensures AsDeclared(who, Next(s, CloseFirst(c, name)))
  {
    var t := Next(s, CloseFirst(c, name));
    CloseKeepsHosts(s, c, name);
    StillDeclared(who, s, t);
  }

  lemma CloseKeepsHosts(s: Server, c: nat, name: string)
    requires Consistent(s) && Possible(s, CloseFirst(c, name))
    ensures var t := Next(s, CloseFirst(c, name));
            forall n, d :: Holds(t.db, n, d) ==> Holds(s.db, n, d) && HostOf(t.db, Fd(t, d)) == HostOf(s.db, Fd(s, d))
  {
    var t := Next(s, CloseFirst(c, name));
    if Holds(s.db, name, c) {
      DetachShape(s, c, name);
    }
    forall n, d | Holds(t.db, n, d)
      ensures Holds(s.db, n, d) && HostOf(t.db, Fd(t, d)) == HostOf(s.db, Fd(s, d))
    {
      assert Holds(s.db, n, d) && d != c && s.open[d] != s.open[c];
    }
  }

  lemma UnregisterFrame(db: Db, name: string, host: Host)
    ensures Unregister(db, name, host).active == db.active && Unregister(db, name, host).tcp == db.tcp
  {
  }

  lemma {:induction false} RunKeeps(who: nat -> Identity, s: Server, es: seq<Event>)
    requires Consistent(s) && AsDeclared(who, s) && RunPossible(s, es) && Disciplined(who, s, es)
    ensures Consistent(Run(s, es))
    decreases |es|
  {
    if es != [] {
      if es[0].RegisterReq? { DeclaredFits(who, s, es[0].conn, es[0].name, es[0].host); }
      NextKeeps(s, es[0]);
      NextKeepsDeclared(who, s, es[0]);
      RunKeeps(who, Next(s, es[0]), es[1..]);
    }
  }

  /** Over every interleaving of connects, registrations, unregistrations and the
      two halves of closes the three maps stay consistent: host lists are non-empty
      with distinct addresses, inner client maps are non-empty, the descriptors in
      `tcp_services_map` are those of the active connections, each active
      connection is open and active once, and every advertised host is backed by an
      active connection or by a close between its halves. */
  lemma RegistryConsistent(who: nat -> Identity, es: seq<Event>)
    requires RunPossible(Start(), es) && Disciplined(who, Start(), es)
    ensures Consistent(Run(Start(), es))
  {
    RunKeeps(who, Start(), es);
  }

  /** Once all closes are complete and nobody is active, nothing is advertised. */
  lemma NobodyLeft(s: Server)
    requires Consistent(s) && s.db.active == map[] && s.closing == multiset{}
    ensures s.db.services == map[] && s.db.tcp == map[]
  {
    assert forall n, c :: !Holds(s.db, n, c);
    if n :| n in s.db.services {
      assert Backed(s, n, s.db.services[n][0]);
    }
    forall fd ensures fd !in s.db.tcp {
      if fd in s.db.tcp {
        assert false;
      }
    }
  }

  /** A connection that registers two services leaves one advertised without
      backing: the close finds and removes only one. */
  lemma TwoNamesLeak(h: Host, g: Host)
    requires h.port != 0 && g.port != 0
    ensures var es := [Connect(1, 5), RegisterReq(1, "a", h), RegisterReq(1, "b", g), CloseFirst(1, "a")];
            && RunPossible(Start(), es)
            && var s := Run(Start(), es);
               "b" in s.db.services && s.db.services["b"] == [g] && s.open == map[] && !Backed(s, "b", g)
  {
    var e4: seq<Event> := [];
    var e3 := [CloseFirst(1, "a")];
    var e2 := [RegisterReq(1, "b", g), CloseFirst(1, "a")];
    var e1 := [RegisterReq(1, "a", h), RegisterReq(1, "b", g), CloseFirst(1, "a")];
    var e0 := [Connect(1, 5), RegisterReq(1, "a", h), RegisterReq(1, "b", g), CloseFirst(1, "a")];
    assert e0[1..] == e1 && e1[1..] == e2 && e2[1..] == e3 && e3[1..] == e4;
    var s2 := BothRegistered(h, g).0;
    var s3 := BothRegistered(h, g).1;
    LeakSteps(h, g);
    var s1 := Next(Start(), Connect(1, 5));
    var s4 := Next(s3, CloseFirst(1, "a"));
    assert RunPossible(s4, e4) && RunPossible(s3, e3);
    assert RunPossible(s2, e2) && RunPossible(s1, e1) && RunPossible(Start(), e0);
    assert Run(s3, e3) == Run(s4, e4) && Run(s2, e2) == Run(s3, e3);
    assert Run(s1, e1) == Run(s2, e2) && Run(Start(), e0) == Run(s1, e1);
  }

  /** The server after the first and after the second registration. */
  function BothRegistered(h: Host, g: Host): (Server, Server) {
    var one := Server(Db(map["a" := [h]], map["a" := map[1 := 5]], map[5 := h]), map[1 := 5], multiset{}, multiset{}, {1}, [], []);
    (one, one.(db := Db(map["a" := [h], "b" := [g]], map["a" := map[1 := 5], "b" := map[1 := 5]], map[5 := g])))
  }

  lemma LeakSteps(h: Host, g: Host)
    requires h.port != 0 && g.port != 0
    ensures var one, two := BothRegistered(h, g).0, BothRegistered(h, g).1;
            && Possible(Start(), Connect(1, 5)) && Next(Next(Start(), Connect(1, 5)), RegisterReq(1, "a", h)) == one
            && Next(one, RegisterReq(1, "b", g)) == two && Possible(two, CloseFirst(1, "a"))
            && var end := Next(two, CloseFirst(1, "a"));
               && end.db.services == two.db.services && end.open == map[] && end.closing == multiset{("a", g)} && end.db.tcp == map[]
               && !Backed(end, "b", g)
  {
    var one, two := BothRegistered(h, g).0, BothRegistered(h, g).1;
    var s1 := Next(Start(), Connect(1, 5));
    assert Register(s1.db, 1, 5, "a", h) == one.db;
    assert Register(one.db, 1, 5, "b", g) == two.db;
    assert Holds(two.db, "a", 1);
    var end := Next(two, CloseFirst(1, "a"));
    assert end.db.tcp == map[];
  }

  // ------------------------------------------------------------ the gate

  /** Whoever is open has a host on record if and only if it had a registration recorded,
      and is then active under some name; no other descriptor is on record, but for -1. */
  ghost predicate Gated(s: Server) {
    && OpenOk(s)
    && (forall c :: c in s.open && s.open[c] in s.db.tcp ==> c in s.accepted && exists n :: Holds(s.db, n, c))
    && (forall c :: c in s.open && c in s.accepted ==> s.open[c] in s.db.tcp)
    && (forall fd :: fd in s.db.tcp && fd != -1 ==> exists c :: c in s.open && s.open[c] == fd)
  }

  /** Steps that leave the connections and their records alone. */
  lemma SameGate(s: Server, t: Server)
    requires Gated(s) && s.db.active == t.db.active && s.db.tcp == t.db.tcp && s.open == t.open && s.accepted == t.accepted
    ensures Gated(t)
  {
    forall c | c in t.open && t.open[c] in t.db.tcp ensures exists n :: Holds(t.db, n, c) {
      var n :| Holds(s.db, n, c);
      assert Holds(t.db, n, c);
    }
    assert forall fd :: fd in t.db.tcp && fd != -1 ==> exists c :: c in s.open && s.open[c] == fd;
  }

  lemma ConnectGated(s: Server, c: nat, fd: int)
    requires Gated(s) && Possible(s, Connect(c, fd))
    ensures Gated(Next(s, Connect(c, fd)))
  {
    var t := Next(s, Connect(c, fd));
    assert fd !in s.db.tcp;
    forall d | d in t.open && t.open[d] in t.db.tcp ensures d in t.accepted && exists n :: Holds(t.db, n, d) {
      assert d != c && d in s.open;
      var n :| Holds(s.db, n, d);
      assert Holds(t.db, n, d);
    }
    forall x | x in t.db.tcp && x != -1 ensures exists d :: d in t.open && t.open[d] == x {
      var d :| d in s.open && s.open[d] == x;
      assert d in t.open && t.open[d] == x;
    }
  }

  lemma RegisterGated(s: Server, c: nat, name: string, host: Host)
    requires Gated(s)
    ensures Gated(Next(s, RegisterReq(c, name, host)))
  {
    var t := Next(s, RegisterReq(c, name, host));
    if !Records(s.db, name, host) {
      UnrecordedFrame(s.db, c, Fd(s, c), name, host);
      SameGate(s, t);
    } else {
      RecordedShape(s, c, name, host);
      forall d | d in t.open && t.open[d] in t.db.tcp ensures d in t.accepted && exists n :: Holds(t.db, n, d) {
        if d == c {
          assert Holds(t.db, name, c);
        } else {
          assert s.open[d] != Fd(s, c) && s.open[d] in s.db.tcp;
          var n :| Holds(s.db, n, d);
          assert Holds(t.db, n, d);
        }
      }
      forall x | x in t.db.tcp && x != -1 ensures exists d :: d in t.open && t.open[d] == x {
        if x == Fd(s, c) {
          assert c in t.open && t.open[c] == x;
        } else {
          var d :| d in s.open && s.open[d] == x;
          assert d in t.open && t.open[d] == x;
        }
      }
    }
  }

  lemma CloseGated(s: Server, c: nat, name: string)
    requires Gated(s) && Possible(s, CloseFirst(c, name))
    ensures Gated(Next(s, CloseFirst(c, name)))
  {
    var t := Next(s, CloseFirst(c, name));
    assert s.open[c] !in t.db.tcp by {
      assert !Holds(s.db, name, c) ==> forall n :: !Holds(s.db, n, c);
    }
    forall d | d in t.open && t.open[d] in t.db.tcp ensures d in t.accepted && exists n :: Holds(t.db, n, d) {
      assert d != c && s.open[d] in s.db.tcp;
      var n :| Holds(s.db, n, d);
      OtherStaysActive(s.db, c, s.open[c], name, n, d);
      assert Holds(t.db, n, d);
    }
    forall x | x in t.db.tcp && x != -1 ensures exists d :: d in t.open && t.open[d] == x {
      var d :| d in s.open && s.open[d] == x;
      assert d != c && d in t.open && t.open[d] == x;
    }
  }

  lemma OtherStaysActive(db: Db, c: nat, fd: int, name: string, n: string, d: nat)
    requires Holds(db, n, d) && d != c
    ensures Holds(db, name, c) ==> Holds(Detach(db, c, fd, name), n, d)
  {
    if Holds(db, name, c) && n == name {
      assert d in db.active[name] - {c};
    }
  }

  lemma NextGated(s: Server, e: Event)
    requires Gated(s) && Possible(s, e)
    ensures Gated(Next(s, e))
  {
    match e
    case Connect(c, fd) => ConnectGated(s, c, fd);
    case RegisterReq(c, name, host) => RegisterGated(s, c, name, host);
    case CloseFirst(c, name) => CloseGated(s, c, name);
    case Request(c, ask) => SameGate(s, Next(s, e));
    case Act(c, ask) =>
      if ask.Unregistration? { UnregisterFrame(s.db, ask.name, ask.host); }
      SameGate(s, Next(s, e));
    case CloseSecond(name, host) =>
      UnregisterFrame(s.db, name, host);
      SameGate(s, Next(s, e));
  }

  lemma {:induction false} RunGated(s: Server, es: seq<Event>)
    requires Gated(s) && RunPossible(s, es)
    ensures Gated(Run(s, es))
    decreases |es|
  {
    if es != [] {
      NextGated(s, es[0]);
      RunGated(Next(s, es[0]), es[1..]);
    }
  }

  /** A registration of `c` has been recorded since it was last opened. */
  predicate RecordedSince(s: Server, es: seq<Event>, c: nat, before: bool)
    requires RunPossible(s, es)
    decreases |es|
  {
    if es == [] then before
    else
      var now := match es[0]
                 case Connect(d, _) => before && d != c
                 case RegisterReq(d, name, host) => before || (d == c && Records(s.db, name, host))
                 case _ => before;
      RecordedSince(Next(s, es[0]), es[1..], c, now)
  }

  lemma {:induction false} AcceptedMeans(s: Server, es: seq<Event>, c: nat)
    requires RunPossible(s, es)
    ensures c in Run(s, es).accepted <==> RecordedSince(s, es, c, c in s.accepted)
    decreases |es|
  {
    if es != [] {
      AcceptedMeans(Next(s, es[0]), es[1..], c);
    }
  }

  /** The gate of `process_data_from_client`: in every run, whatever connections
      register and when, a request of an open connection passes if and only if a
      registration of that connection has been recorded since it was opened; what does
      not pass changes nothing. */
  lemma GateHolds(es: seq<Event>, c: nat, ask: Ask)
    requires RunPossible(Start(), es) && c in Run(Start(), es).open
    ensures var s := Run(Start(), es); var t := Next(s, Request(c, ask));
            && t.db == s.db && t.open == s.open
            && t.granted == (if RecordedSince(Start(), es, c, false) then s.granted + [(c, ask)] else s.granted)
            && t.passed == (if RecordedSince(Start(), es, c, false) then s.passed + multiset{(c, ask)} else s.passed)
  {
    RunGated(Start(), es);
    AcceptedMeans(Start(), es, c);
  }

  /** Nothing is done but what has passed, once for each time it did. */
  lemma {:induction false} ActedWasGranted(s: Server, es: seq<Event>)
    requires RunPossible(s, es) && multiset(s.granted) == s.passed + multiset(s.acted)
    ensures var t := Run(s, es); multiset(t.granted) == t.passed + multiset(t.acted)
    decreases |es|
  {
    if es != [] {
      ActedWasGranted(Next(s, es[0]), es[1..]);
    }
  }

  /** The requests of a run that were entitled to pass, in order. */
  function Entitled(s: Server, es: seq<Event>): seq<(nat, Ask)>
    requires RunPossible(s, es)
    decreases |es|
  {
    if es == [] then []
    else
      (if es[0].Request? && (if es[0].conn in s.open then es[0].conn in s.accepted else -1 in s.db.tcp)
       then [(es[0].conn, es[0].ask)] else [])
      + Entitled(Next(s, es[0]), es[1..])
  }

  lemma {:induction false} GrantedIsEntitled(s: Server, es: seq<Event>)
    requires Gated(s) && RunPossible(s, es)
    ensures Run(s, es).granted == s.granted + Entitled(s, es)
    decreases |es|
  {
    if es != [] {
      NextGated(s, es[0]);
      GrantedIsEntitled(Next(s, es[0]), es[1..]);
      var first := if es[0].Request? && (if es[0].conn in s.open then es[0].conn in s.accepted else -1 in s.db.tcp)
                   then [(es[0].conn, es[0].ask)] else [];
      assert Next(s, es[0]).granted == s.granted + first;
      SeqAssoc(s.granted, first, Entitled(Next(s, es[0]), es[1..]));
    }
  }

  lemma SeqAssoc<T>(a: seq<T>, b: seq<T>, c: seq<T>)
    ensures a + (b + c) == (a + b) + c
  {
  }

  /** So over every run: what passed is exactly what was entitled to, and what acted is
      part of that. */
  lemma OnlyEntitledAct(es: seq<Event>)
    requires RunPossible(Start(), es)
    ensures var s := Run(Start(), es);
            s.granted == Entitled(Start(), es) && multiset(s.acted) <= multiset(Entitled(Start(), es))
  {
    GrantedIsEntitled(Start(), es);
    ActedWasGranted(Start(), es);
  }

  /** Some registration is recorded for a connection that is closed by then. */
  predicate LateRegistration(s: Server, es: seq<Event>)
    requires RunPossible(s, es)
    decreases |es|
  {
    es != [] &&
    ((es[0].RegisterReq? && es[0].conn !in s.open && Records(s.db, es[0].name, es[0].host))
     || LateRegistration(Next(s, es[0]), es[1..]))
  }

  lemma NextMinusOne(s: Server, e: Event)
    requires OpenOk(s) && Possible(s, e)
    ensures -1 in Next(s, e).db.tcp <==>
            -1 in s.db.tcp || (e.RegisterReq? && e.conn !in s.open && Records(s.db, e.name, e.host))
  {
    match e
    case RegisterReq(c, name, host) =>
      if Records(s.db, name, host) {
        RecordedShape(s, c, name, host);
      } else {
        UnrecordedFrame(s.db, c, Fd(s, c), name, host);
      }
    case Act(c, ask) =>
      if ask.Unregistration? { UnregisterFrame(s.db, ask.name, ask.host); }
    case CloseSecond(name, host) => UnregisterFrame(s.db, name, host);
    case _ =>
  }

  lemma {:induction false} RunMinusOne(s: Server, es: seq<Event>)
    requires Gated(s) && RunPossible(s, es)
    ensures -1 in Run(s, es).db.tcp <==> -1 in s.db.tcp || LateRegistration(s, es)
    decreases |es|
  {
    if es != [] {
      NextMinusOne(s, es[0]);
      NextGated(s, es[0]);
      RunMinusOne(Next(s, es[0]), es[1..]);
    }
  }

  /** A request of a closed connection passes the gate if and only if a registration
      was ever recorded for a connection that had been closed, its own or any other. */
  lemma ClosedGateExact(es: seq<Event>, c: nat)
    requires RunPossible(Start(), es) && c !in Run(Start(), es).open
    ensures Registered(Run(Start(), es), c) <==> LateRegistration(Start(), es)
  {
    RunMinusOne(Start(), es);
  }

  /** For example: connection 1 registers after its close; then a request of connection 2,
      which was opened and closed without ever registering, passes. */
  lemma LateRegistrationOpensGate(h: Host)
    requires h.port != 0
    ensures var es := [Connect(1, 5), CloseFirst(1, ""), Connect(2, 6), CloseFirst(2, ""), RegisterReq(1, "a", h)];
            && RunPossible(Start(), es)
            && var s := Run(Start(), es); 2 !in s.open && Registered(s, 2) && 2 !in s.accepted
  {
    var e5: seq<Event> := [];
    var e4 := [RegisterReq(1, "a", h)];
    var e3 := [CloseFirst(2, ""), RegisterReq(1, "a", h)];
    var e2 := [Connect(2, 6), CloseFirst(2, ""), RegisterReq(1, "a", h)];
    var e1 := [CloseFirst(1, ""), Connect(2, 6), CloseFirst(2, ""), RegisterReq(1, "a", h)];
    var e0 := [Connect(1, 5), CloseFirst(1, ""), Connect(2, 6), CloseFirst(2, ""), RegisterReq(1, "a", h)];
    assert e0[1..] == e1 && e1[1..] == e2 && e2[1..] == e3 && e3[1..] == e4 && e4[1..] == e5;
    var s1 := Next(Start(), Connect(1, 5));
    var s2 := Next(s1, CloseFirst(1, ""));
    var s3 := Next(s2, Connect(2, 6));
    var s4 := Next(s3, CloseFirst(2, ""));
    var s5 := Next(s4, RegisterReq(1, "a", h));
    assert s2.open == map[] && s4.open == map[] && s4.db == Start().db;
    assert s5.db.tcp == map[-1 := h] && s5.accepted == {1};
    assert RunPossible(s5, e5) && RunPossible(s4, e4) && RunPossible(s3, e3);
    assert RunPossible(s2, e2) && RunPossible(s1, e1) && RunPossible(Start(), e0);
    assert Run(s4, e4) == Run(s5, e5) && Run(s3, e3) == Run(s4, e4) && Run(s2, e2) == Run(s3, e3);
    assert Run(s1, e1) == Run(s2, e2) && Run(Start(), e0) == Run(s1, e1);
  }

  /** A further registration of a listed address stores its new busy state, there and
      nowhere else. */
  lemma StateIsStored(s: Server, c: nat, name: string, host: Host, i: nat)
    requires Consistent(s) && name in s.db.services && Listed(s.db.services[name], host) && i < |s.db.services[name]|
    ensures var t := Next(s, RegisterReq(c, name, host)); var was := s.db.services[name][i];
            && t.db.services.Keys == s.db.services.Keys && |t.db.services[name]| == |s.db.services[name]|
            && t.db.services[name][i] ==
               (if was.ip == host.ip && was.port == host.port then Host(was.ip, was.port, host.state) else was)
            && (forall n :: n in s.db.services && n != name ==> t.db.services[n] == s.db.services[n])
            && t.db.active == s.db.active && t.db.tcp == s.db.tcp
  {
    FindListed(s.db.services[name], host);
  }

  // ------------------------------------------------------------ success without effect

  /** The registration is answered with return code 0. */
  predicate Answered(db: Db, name: string, host: Host) {
    Records(db, name, host) || (name != "" && name in db.services && Listed(db.services[name], host))
  }

  /** After a registration that is answered with success, the connection is active for
      the service if and only if it was recorded or the connection was active before. The
      other case is an address that somebody else advertises, or still does. */
  lemma SuccessExact(s: Server, c: nat, name: string, host: Host)
    requires Answered(s.db, name, host)
    ensures var t := Next(s, RegisterReq(c, name, host));
            Holds(t.db, name, c) <==> !(name in s.db.services && Listed(s.db.services[name], host)) || Holds(s.db, name, c)
  {
    var t := Next(s, RegisterReq(c, name, host));
    if Records(s.db, name, host) {
      RecordedShape(s, c, name, host);
    } else {
      UnrecordedFrame(s.db, c, Fd(s, c), name, host);
      assert t.db.active == s.db.active;
    }
  }

  /** A service that reconnects: its second registration meets the address of the first,
      whose close has done only one of its halves. It is answered with success, and then
      the other half removes the address: the new connection is open, but neither active
      nor advertised, and does not pass the gate. */
  lemma SuccessWithoutEffect(h: Host)
    requires h.port != 0
    ensures var before := [Connect(1, 5), RegisterReq(1, "a", h), CloseFirst(1, "a"), Connect(2, 6)];
            var es := before + [RegisterReq(2, "a", h), CloseSecond("a", h)];
            && RunPossible(Start(), before) && Answered(Run(Start(), before).db, "a", h)
            && RunPossible(Start(), es)
            && var s := Run(Start(), es);
               2 in s.open && s.db == Start().db && s.closing == multiset{} && !Holds(s.db, "a", 2) && !Registered(s, 2)
  {
    var before := [Connect(1, 5), RegisterReq(1, "a", h), CloseFirst(1, "a"), Connect(2, 6)];
    var last := [RegisterReq(2, "a", h), CloseSecond("a", h)];
    var s4 := Reconnected(h);
    ReconnectSteps(h);
    RunBefore(h);
    var s5 := Next(s4, RegisterReq(2, "a", h));
    var s6 := Next(s5, CloseSecond("a", h));
    var e5 := [CloseSecond("a", h)];
    var e6: seq<Event> := [];
    assert last[1..] == e5 && e5[1..] == e6;
    assert RunPossible(s6, e6) && RunPossible(s5, e5) && RunPossible(s4, last);
    assert Run(s5, e5) == Run(s6, e6) && Run(s4, last) == Run(s5, e5);
    RunAppend(Start(), before, last);
  }

  /** The server when the second connection is open and the first half closed. */
  function Reconnected(h: Host): Server {
    Server(Db(map["a" := [h]], map[], map[]), map[2 := 6], multiset{("a", h)}, multiset{}, {1}, [], [])
  }

  lemma ReconnectSteps(h: Host)
    requires h.port != 0
    ensures var s := Reconnected(h);
            && Answered(s.db, "a", h)
            && var t := Next(s, RegisterReq(2, "a", h));
               && Possible(t, CloseSecond("a", h))
               && var u := Next(t, CloseSecond("a", h));
                  u.db == Start().db && u.open == map[2 := 6] && u.closing == multiset{}
  {
    var s := Reconnected(h);
    assert SameAddr(s.db.services["a"][0], h);
    var t := Next(s, RegisterReq(2, "a", h));
    assert Find(s.db.services["a"], h) == 0 && [h][0 := h.(state := h.state)] == [h];
    assert t.db.services == s.db.services;
    assert Unregister(t.db, "a", h).services == map[];
  }

  lemma RunBefore(h: Host)
    requires h.port != 0
    ensures var es := [Connect(1, 5), RegisterReq(1, "a", h), CloseFirst(1, "a"), Connect(2, 6)];
            RunPossible(Start(), es) && Run(Start(), es) == Reconnected(h)
  {
    var e4: seq<Event> := [];
    var e3: seq<Event> := [Connect(2, 6)];
    var e2 := [CloseFirst(1, "a"), Connect(2, 6)];
    var e1 := [RegisterReq(1, "a", h), CloseFirst(1, "a"), Connect(2, 6)];
    var e0 := [Connect(1, 5), RegisterReq(1, "a", h), CloseFirst(1, "a"), Connect(2, 6)];
    assert e0[1..] == e1 && e1[1..] == e2 && e2[1..] == e3 && e3[1..] == e4;
    var s1 := Next(Start(), Connect(1, 5));
    var s2 := BothRegistered(h, h).0;
    assert Register(s1.db, 1, 5, "a", h) == s2.db;
    assert Next(s1, RegisterReq(1, "a", h)) == s2;
    assert Holds(s2.db, "a", 1);
    var s3 := Next(s2, CloseFirst(1, "a"));
    assert s3 == Server(Db(map["a" := [h]], map[], map[]), map[], multiset{("a", h)}, multiset{}, {1}, [], []);
    assert Next(s3, Connect(2, 6)) == Reconnected(h);
    assert RunPossible(Reconnected(h), e4) && RunPossible(s3, e3) && RunPossible(s2, e2);
    assert RunPossible(s1, e1) && RunPossible(Start(), e0);
    assert Run(s3, e3) == Reconnected(h) && Run(s2, e2) == Run(s3, e3) && Run(s1, e1) == Run(s2, e2);
  }

  lemma {:induction false} RunAppend(s: Server, a: seq<Event>, b: seq<Event>)
    requires RunPossible(s, a) && RunPossible(Run(s, a), b)
    ensures RunPossible(s, a + b) && Run(s, a + b) == Run(Run(s, a), b)
    decreases |a|
  {
    if a == [] {
      assert a + b == b;
    } else {
      assert (a + b)[0] == a[0] && (a + b)[1..] == a[1..] + b;
      RunAppend(Next(s, a[0]), a[1..], b);
    }
  }

  // ------------------------------------------------------------ the code

  /** The three global maps and the functions that update them. */
  class MsgBusServer {
    var services: map<string, seq<Host>>
    var active: map<string, map<nat, int>>
    var tcp: map<int, Host>

    ghost function View(): Db
      reads this
    {
      Db(services, active, tcp)
    }

    constructor ()
      ensures View() == Start().db
    {
      services, active, tcp := map[], map[], map[];
    }

    /** `std::find_first_of` for one host. */
    method FindHost(hosts: seq<Host>, host: Host) returns (pos: nat)
      ensures pos == Find(hosts, host)
    {
      pos := 0;
      while pos < |hosts| && !(hosts[pos].ip == host.ip && hosts[pos].port == host.port)
        invariant 0 <= pos <= |hosts|
        invariant forall j :: 0 <= j < pos ==> !SameAddr(hosts[j], host)
      {
        pos := pos + 1;
      }
    }

    method Remember(conn: nat, fd: int, name: string, host: Host)
      modifies this
      ensures View() == Attach(old(View()), conn, fd, name, host)
    {
      var holders: map<nat, int> := if name in active then active[name] else map[];
      holders := holders[conn := fd];
      active := active[name := holders];
      tcp := tcp[fd := host];
    }

    /** `process_register_req`: a host without an address gets the peer's. */
    method ProcessRegister(conn: nat, fd: int, peerIp: string, name: string, given: Host) returns (retCode: nat)
      modifies this
      ensures var host := if given.ip == "" then given.(ip := peerIp) else given;
              && View() == Register(old(View()), conn, fd, name, host)
              && (retCode == 0 <==> Records(old(View()), name, host)
                                    || (name in old(services) && Listed(old(services)[name], host) && name != ""))
    {
      retCode := 0;
      if name == "" {
        return 1;
      }
      var host := given;
      if host.ip == "" {
        host := host.(ip := peerIp);
      }
      if name in services {
        var pos := FindHost(services[name], host);
        if pos < |services[name]| {
          var known := services[name][pos];
          services := services[name := services[name][pos := known.(state := host.state)]];
        } else {
          services := services[name := services[name] + [host]];
          Remember(conn, fd, name, host);
        }
      } else {
        var canReg := true;
        if host.port != 0 {
          services := services[name := [host]];
        } else if name in active {
          retCode := 1;
          canReg := false;
        }
        if canReg {
          Remember(conn, fd, name, host);
        }
      }
    }

    /** `unregister_client_from_service`. */
    method UnregisterClient(name: string, host: Host)
      modifies this`services
      ensures View() == Unregister(old(View()), name, host)
    {
      if name in services {
        var pos := FindHost(services[name], host);
        if pos != |services[name]| {
          services := services[name := services[name][..pos] + services[name][pos + 1..]];
          if services[name] == [] {
            services := services - {name};
          }
        }
      }
    }

    /** The locked half of `server_onClose`: look through the services until one
        holds the connection. The order of the walk is left open. */
    method OnCloseFirst(conn: nat, fd: int) returns (name: string, host: Host)
      modifies this
      ensures if exists n :: Holds(old(View()), n, conn)
              then && Holds(old(View()), name, conn)
                   && View() == Detach(old(View()), conn, fd, name)
                   && host == HostOf(old(View()), fd)
              else View() == old(View()) && name == "" && host == Host("", 0, 0)
    {
      name, host := "", Host("", 0, 0);
      var names := active.Keys;
      while names != {}
        invariant names <= active.Keys && View() == old(View())
        invariant forall n :: n in active && n !in names ==> conn !in active[n]
        decreases |names|
      {
        var n :| n in names;
        if conn in active[n] {
          assert Holds(View(), n, conn);
          host := if fd in tcp then tcp[fd] else Host("", 0, 0);
          name := n;
          var left: map<nat, int> := active[n] - {conn};
          active := active[n := left];
          tcp := tcp - {fd};
          if active[n] == map[] {
            active := active - {n};
          }
          return;
        }
        names := names - {n};
      }
      assert forall n :: n in active ==> conn !in active[n];
    }
  }
}
