/** Relaying a message through the server (Core/msgbus_server.cpp): every service
    whose name is prefix-comparable to the destination gets the message on one of
    its connections, chosen at random. */
module Relay {
  import R = Registry

  predicate IsPrefix(a: string, b: string) { a <= b }

  /** `is_prefix_matching`, as written. */
  predicate PrefixMatching(left: string, right: string) {
    if |left| > |right| then left[..|right|] == right else right[..|left|] == left
  }

  /** It means that one name is a prefix of the other; in particular it is
      symmetric, and the empty destination matches everybody. */
  lemma PrefixMatchingMeans(a: string, b: string)
    ensures PrefixMatching(a, b) <==> IsPrefix(a, b) || IsPrefix(b, a)
    ensures PrefixMatching(a, b) == PrefixMatching(b, a)
    ensures PrefixMatching(a, "")
  {
    if |a| > |b| {
      assert IsPrefix(b, a) <==> a[..|b|] == b;
    } else {
      assert IsPrefix(a, b) <==> b[..|a|] == a;
      if IsPrefix(b, a) { assert a == b; }
    }
    assert a[..0] == "";
  }

  /** Where the selection loop ends for a draw below `n`. */
  function Picked(n: nat, draw: nat): (k: nat)
    requires draw < n
    ensures k < n && k == (draw + 1) % n
  {
    if draw + 1 == n then 0 else draw + 1
  }

  /** `msgbus_select_best_client` over active connections: the loop counts the draw
      down and, because it tests before it decrements, ends one place later than
      the draw, or on the first element if it runs off the end. */
  method SelectBest(container: seq<nat>, draw: nat) returns (found: bool, best: nat)
    requires container != [] ==> draw < |container|
    ensures found == (container != [])
    ensures found ==> best == container[Picked(|container|, draw)]
  {
    found, best := false, 0;
    if |container| > 0 {
      best := container[0];
      var randselect: int := draw;
      var pos := 0;
      while pos < |container|
        invariant 0 <= pos <= |container| && randselect == draw - pos && pos <= draw + 1
        invariant best == container[0]
      {
        var was := randselect;
        randselect := randselect - 1;
        if was < 0 {
          best := container[pos];
          break;
        }
        pos := pos + 1;
      }
      found := true;
    }
  }

  /** Every connection is selected by exactly one draw: the choice is fair. */
  lemma SelectionIsBijection(n: nat, k: nat)
    requires k < n
    ensures exists r :: 0 <= r < n && Picked(n, r) == k
    ensures forall r, q :: 0 <= r < n && 0 <= q < n && Picked(n, r) == Picked(n, q) ==> r == q
  {
    var r := if k == 0 then n - 1 else k - 1;
    assert Picked(n, r) == k;
  }

  predicate Wanted(clients: map<string, seq<nat>>, dest: string, name: string) {
    name in clients && clients[name] != [] && PrefixMatching(name, dest)
  }

  /** The connection that the draws select for a wanted service. */
  ghost predicate Selected(clients: map<string, seq<nat>>, draws: map<string, nat>, n: string, c: nat) {
    && n in clients && n in draws && draws[n] < |clients[n]|
    && c == clients[n][Picked(|clients[n]|, draws[n])]
  }

  /** The relay branch of `msgbus_process_thread`: choose one connection of every
      matching service, then send to each chosen connection once. `draws` are the
      random numbers. */
  method RelayTo(clients: map<string, seq<nat>>, dest: string, draws: map<string, nat>)
    returns (chosen: map<string, nat>, sent: seq<nat>)
    requires forall n :: n in clients && clients[n] != [] ==> n in draws && draws[n] < |clients[n]|
    ensures forall n :: n in chosen <==> Wanted(clients, dest, n)
    ensures forall n :: n in chosen ==> Selected(clients, draws, n, chosen[n])
    ensures forall i, j :: 0 <= i < j < |sent| ==> sent[i] != sent[j]
    ensures forall c :: c in sent <==> c in chosen.Values
  {
    chosen := ChooseEach(clients, dest, draws);
    var destclients := chosen.Values;
    sent := [];
    while destclients != {}
      invariant forall i, j :: 0 <= i < j < |sent| ==> sent[i] != sent[j]
      invariant forall c :: c in sent ==> c !in destclients
      invariant forall c :: c in sent || c in destclients <==> c in chosen.Values
      decreases |destclients|
    {
      var c :| c in destclients;
      sent := sent + [c];
      destclients := destclients - {c};
    }
  }

  method ChooseEach(clients: map<string, seq<nat>>, dest: string, draws: map<string, nat>)
    returns (chosen: map<string, nat>)
    requires forall n :: n in clients && clients[n] != [] ==> n in draws && draws[n] < |clients[n]|
    ensures forall n :: n in chosen <==> Wanted(clients, dest, n)
    ensures forall n :: n in chosen ==> Selected(clients, draws, n, chosen[n])
  {
    chosen := map[];
    var names := clients.Keys;
    while names != {}
      invariant names <= clients.Keys
      invariant forall n :: n in chosen <==> n !in names && Wanted(clients, dest, n)
      invariant forall n :: n in chosen ==> Selected(clients, draws, n, chosen[n])
      decreases |names|
    {
      var n :| n in names;
      if PrefixMatching(n, dest) {
        var draw := if n in draws then draws[n] else 0;
        var found, best := SelectBest(clients[n], draw);
        if found {
          chosen := chosen[n := best];
        }
      }
      names := names - {n};
    }
  }

  /** `clients` lists, for every service, its active connections in some order. */
  ghost predicate Lists(clients: map<string, seq<nat>>, s: R.Server) {
    && clients.Keys == s.db.active.Keys
    && forall n, c :: n in clients ==> (c in clients[n] <==> c in s.db.active[n])
  }

  /** In a consistent registry a relayed message reaches exactly one connection of
      every service that matches the destination, and none of any other. */
  lemma ExactlyOneEach(s: R.Server, clients: map<string, seq<nat>>, dest: string, chosen: map<string, nat>, n: string)
    requires R.Consistent(s) && Lists(clients, s) && n in s.db.active
    requires forall m :: m in chosen <==> Wanted(clients, dest, m)
    requires forall m :: m in chosen ==> m in clients && chosen[m] in clients[m]
    ensures PrefixMatching(n, dest) ==> n in chosen
    ensures var reached := set c | c in s.db.active[n] && c in chosen.Values;
            reached == if PrefixMatching(n, dest) then {chosen[n]} else {}
  {
    NonEmpty(s, clients, n);
    var reached := set c | c in s.db.active[n] && c in chosen.Values;
    forall c | c in reached ensures n in chosen && c == chosen[n] {
      var m :| m in chosen && chosen[m] == c;
      assert R.Holds(s.db, m, c) && R.Holds(s.db, n, c);
    }
    if PrefixMatching(n, dest) {
      assert chosen[n] in chosen.Values && chosen[n] in s.db.active[n];
    }
  }

  lemma NonEmpty(s: R.Server, clients: map<string, seq<nat>>, n: string)
    requires R.Consistent(s) && Lists(clients, s) && n in s.db.active
    ensures clients[n] != []
  {
    var c :| c in s.db.active[n];
    assert c in clients[n];
  }

  // ------------------------------------------------------------ lookup

  /** `process_getclient_req`: one of the advertised hosts of exactly that name. */
  method GetClient(services: map<string, seq<R.Host>>, dest: string, draw: nat) returns (retCode: nat, host: R.Host)
    requires dest in services && services[dest] != [] ==> draw < |services[dest]|
    ensures retCode == 0 || retCode == 1
    ensures retCode == 0 <==> dest in services && services[dest] != []
    ensures retCode == 0 ==> host == services[dest][draw]
  {
    retCode, host := 1, R.Host("", 0, 0);
    if dest in services && |services[dest]| > 0 {
      host := services[dest][draw];
      retCode := 0;
    }
  }

  /** In every run in which connections register as who they are, a lookup answers
      with a backed host: one of an active connection of that very name with the same
      address, or of one whose close is between its halves; and every advertised name
      has such a host. */
  lemma LookupIsBacked(who: nat -> R.Identity, es: seq<R.Event>, dest: string, draw: nat)
    requires R.RunPossible(R.Start(), es) && R.Disciplined(who, R.Start(), es)
    requires dest in R.Run(R.Start(), es).db.services
    ensures var s := R.Run(R.Start(), es);
            && s.db.services[dest] != []
            && (draw < |s.db.services[dest]| ==> R.Backed(s, dest, s.db.services[dest][draw]))
  {
    R.RegistryConsistent(who, es);
  }
}
