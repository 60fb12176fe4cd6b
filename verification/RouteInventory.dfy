/** The inventory of registered routes, found by walking a route graph that may contain cycles, and
    the security classification checked against it. */
module RouteInventory {
  import opened Sequences

  type RouteKey = (string, string)

  /** A route object: its own path and methods, its nested routes, and the routes of the router it was
      included from. Numbers stand for object identities. */
  datatype Route = Route(path: Option<string>, methods: set<string>, nested: seq<nat>, included: seq<nat>)

  datatype App = App(routes: seq<nat>, objects: map<nat, Route>, upper: string -> string)
  {
    /** Every reference leads to an object. */
    ghost predicate Valid() {
      && (forall r :: r in routes ==> r in objects)
      && (forall n :: n in objects ==> forall r :: r in Next(n) ==> r in objects)
    }

    function Next(n: nat): seq<nat>
      requires n in objects
    {
      objects[n].nested + objects[n].included
    }

    /** The keys one route object registers. */
    function KeysAt(n: nat): set<RouteKey>
      requires n in objects
    {
      var route := objects[n];
      if route.path.None? then {} else set m | m in route.methods :: (upper(m), route.path.value)
    }

    /** A walk along references from a route of the application. */
    ghost predicate IsWalk(walk: seq<nat>) {
      && walk != [] && walk[0] in routes
      && (forall i :: 0 <= i < |walk| ==> walk[i] in objects)
      && (forall i :: 0 <= i < |walk| - 1 ==> walk[i + 1] in Next(walk[i]))
    }

    ghost predicate Reaches(n: nat) { exists walk :: IsWalk(walk) && walk[|walk| - 1] == n }

    lemma ReachesNext(n: nat, next: nat)
      requires Valid() && Reaches(n) && n in objects && next in Next(n)
      ensures Reaches(next)
    {
      var walk :| IsWalk(walk) && walk[|walk| - 1] == n;
      var longer := walk + [next];
      assert IsWalk(longer) && longer[|longer| - 1] == next;
    }

    /** A key that some reachable route object registers. */
    ghost predicate Registers(key: RouteKey) {
      exists n :: n in objects && Reaches(n) && key in KeysAt(n)
    }

    /** A set that contains the application's routes and follows every reference misses nothing. */
    lemma ClosedSetHasAll(visited: set<nat>, walk: seq<nat>, i: nat)
      requires IsWalk(walk) && i < |walk|
      requires visited <= objects.Keys && Elements(routes) <= visited
      requires forall n :: n in visited ==> Elements(Next(n)) <= visited
      ensures walk[i] in visited
    {
      if i > 0 {
        ClosedSetHasAll(visited, walk, i - 1);
      }
    }
  }

  /** The walk so far: everything reachable is visited, pending, or behind something pending. */
  ghost predicate Frontier(app: App, visited: set<nat>, pending: set<nat>) {
    && visited <= app.objects.Keys
    && AllReached(app, visited) && AllReached(app, pending)
    && Elements(app.routes) <= visited + pending
    && forall n :: n in visited ==> Elements(app.Next(n)) <= visited + pending
  }

  ghost predicate AllReached(app: App, nodes: set<nat>) {
    forall n :: n in nodes ==> n in app.objects && app.Reaches(n)
  }

  lemma StartFrontier(app: App)
    requires app.Valid()
    ensures Frontier(app, {}, Elements(app.routes))
  {
    forall r | r in app.routes ensures app.Reaches(r) {
      assert app.IsWalk([r]);
    }
  }

  lemma Extend(app: App, visited: set<nat>, pending: set<nat>, visited': set<nat>, pending': set<nat>)
    requires Frontier(app, visited, pending)
    requires visited' <= app.objects.Keys && AllReached(app, visited') && AllReached(app, pending')
    requires visited + pending <= visited' + pending'
    requires forall n :: n in visited' && n !in visited ==> Elements(app.Next(n)) <= visited' + pending'
    ensures Frontier(app, visited', pending')
  {
    forall n | n in visited' ensures Elements(app.Next(n)) <= visited' + pending' {
      if n in visited {
        assert Elements(app.Next(n)) <= visited + pending;
      }
    }
  }

  lemma SkipVisited(app: App, visited: set<nat>, rest: seq<nat>, n: nat)
    requires Frontier(app, visited, Elements(rest + [n])) && n in visited
    ensures Frontier(app, visited, Elements(rest))
  {
    assert Elements(rest + [n]) == Elements(rest) + {n};
    Extend(app, visited, Elements(rest + [n]), visited, Elements(rest));
  }

  lemma VisitNext(app: App, visited: set<nat>, rest: seq<nat>, n: nat)
    requires app.Valid() && Frontier(app, visited, Elements(rest + [n]))
    ensures n in app.objects && Frontier(app, visited + {n}, Elements(rest + app.Next(n)))
  {
    assert Elements(rest + [n]) == Elements(rest) + {n};
    assert n in Elements(rest + [n]);
    assert Elements(rest + app.Next(n)) == Elements(rest) + Elements(app.Next(n));
    assert AllReached(app, Elements(app.Next(n))) by {
      forall r | r in app.Next(n) ensures app.Reaches(r) {
        app.ReachesNext(n, r);
      }
    }
    Extend(app, visited, Elements(rest + [n]), visited + {n}, Elements(rest + app.Next(n)));
  }

  lemma NothingPending(app: App, visited: set<nat>)
    requires Frontier(app, visited, {})
    ensures forall n :: n in visited <==> n in app.objects && app.Reaches(n)
  {
    forall n | app.Reaches(n) ensures n in visited {
      var walk :| app.IsWalk(walk) && walk[|walk| - 1] == n;
      app.ClosedSetHasAll(visited, walk, |walk| - 1);
    }
  }

  function KeysOf(app: App, visited: set<nat>): set<RouteKey>
    requires visited <= app.objects.Keys
  {
    set n, k | n in visited && k in app.KeysAt(n) :: k
  }

  lemma VisitedKeys(app: App, visited: set<nat>, n: nat)
    requires visited <= app.objects.Keys && n in app.objects
    ensures KeysOf(app, visited + {n}) == KeysOf(app, visited) + app.KeysAt(n)
  {}

  lemma AllFound(app: App, visited: set<nat>)
    requires Frontier(app, visited, {}) && visited <= app.objects.Keys
    ensures forall k :: k in KeysOf(app, visited) <==> app.Registers(k)
  {
    NothingPending(app, visited);
  }

  /** One visit: what the loop keeps, and that it comes closer to its end. */
  lemma VisitKeeps(app: App, visited: set<nat>, rest: seq<nat>, n: nat)
    requires app.Valid() && Frontier(app, visited, Elements(rest + [n])) && n !in visited
    ensures n in app.objects && visited <= app.objects.Keys
    ensures Frontier(app, visited + {n}, Elements(rest + app.Next(n)))
    ensures KeysOf(app, visited + {n}) == KeysOf(app, visited) + app.KeysAt(n)
    ensures |app.objects.Keys - (visited + {n})| < |app.objects.Keys - visited|
  {
    VisitNext(app, visited, rest, n);
    OneFewer(app, visited, n);
    VisitedKeys(app, visited, n);
  }

  lemma OneFewer(app: App, visited: set<nat>, n: nat)
    requires n in app.objects && n !in visited
    ensures |app.objects.Keys - (visited + {n})| < |app.objects.Keys - visited|
  {
    assert n in app.objects.Keys - visited;
    SubsetSize(app.objects.Keys - (visited + {n}), app.objects.Keys - visited);
  }

  /** `registered_route_inventory`: terminates on any graph, and finds the keys of exactly the
      reachable routes. */
  method RegisteredRoutes(app: App) returns (registered: set<RouteKey>)
    requires app.Valid()
    ensures forall k :: k in registered <==> app.Registers(k)
  {
    registered := {};
    var pending := app.routes;
    var visited: set<nat> := {};
    StartFrontier(app);
    while pending != []
      invariant Frontier(app, visited, Elements(pending))
      invariant registered == KeysOf(app, visited)
      decreases |app.objects.Keys - visited|, |pending|
    {
      var n := pending[|pending| - 1];
      var rest := pending[..|pending| - 1];
      SplitLast(pending);
      if n in visited {
        SkipVisited(app, visited, rest, n);
        pending := rest;
        continue;
      }
      VisitKeeps(app, visited, rest, n);
      visited := visited + {n};
      registered := registered + app.KeysAt(n);
      pending := rest + (app.objects[n].nested + app.objects[n].included);
    }
    assert Elements(pending) == {};
    AllFound(app, visited);
  }

  /** A path through the route objects: each step goes to a nested route or to one of an included router. */
  ghost predicate IsPath(app: App, walk: seq<nat>) {
    && walk != [] && walk[0] in app.routes
    && (forall i :: 0 <= i < |walk| ==> walk[i] in app.objects)
    && (forall i :: 0 <= i < |walk| - 1 ==>
          walk[i + 1] in app.objects[walk[i]].nested || walk[i + 1] in app.objects[walk[i]].included)
  }

  /** What is registered: a method, in upper case, of a path that some route at the end of such a path has. */
  lemma RegistersIff(app: App, key: RouteKey)
    ensures app.Registers(key) <==>
              exists walk, m :: IsPath(app, walk) && m in app.objects[walk[|walk| - 1]].methods && app.upper(m) == key.0
                                && app.objects[walk[|walk| - 1]].path == Some(key.1)
  {
    forall walk ensures app.IsWalk(walk) <==> IsPath(app, walk) {}
    if app.Registers(key) {
      var n :| n in app.objects && app.Reaches(n) && key in app.KeysAt(n);
      var walk :| app.IsWalk(walk) && walk[|walk| - 1] == n;
      var m :| m in app.objects[n].methods && app.upper(m) == key.0;
      assert IsPath(app, walk) && app.objects[walk[|walk| - 1]].path == Some(key.1);
    }
    forall walk, m | IsPath(app, walk) && m in app.objects[walk[|walk| - 1]].methods && app.upper(m) == key.0
                     && app.objects[walk[|walk| - 1]].path == Some(key.1)
      ensures app.Registers(key)
    {
      assert app.IsWalk(walk) && app.Reaches(walk[|walk| - 1]);
      assert key in app.KeysAt(walk[|walk| - 1]);
    }
  }

  // ---------------------------------------------------------------------------------------
  // Classification

  datatype Class = PublicHealth | ProtectedRead | PrivilegedOperation

  datatype Table = Table(publicHealth: set<RouteKey>, protectedRead: set<RouteKey>, privileged: set<RouteKey>)
  {
    function Of(c: Class): set<RouteKey> {
      match c
      case PublicHealth => publicHealth
      case ProtectedRead => protectedRead
      case PrivilegedOperation => privileged
    }

    function Declared(): set<RouteKey> { publicHealth + protectedRead + privileged }

    ghost predicate Disjoint() {
      forall c, d :: c != d ==> Of(c) * Of(d) == {}
    }
  }

  /** The classes in the order of the table. */
  const CLASSES: seq<Class> := [PublicHealth, ProtectedRead, PrivilegedOperation]

  const ONLY_PUBLIC: set<RouteKey> := {("GET", "/health")}

  datatype Validation = Accepted | Duplicates(keys: set<RouteKey>) | WrongPublicRoutes
                      | Mismatch(unclassified: set<RouteKey>, stale: set<RouteKey>)

  /** `validate_route_security_inventory`: accepted exactly when the classes are disjoint, the health
      check is the only public route, and the declared routes are the reachable ones. */
  method Validate(app: App, table: Table) returns (r: Validation)
    requires app.Valid()
    ensures r.Accepted? <==> Apart(table) && table.publicHealth == {("GET", "/health")}
                             && forall k :: k in table.publicHealth + table.protectedRead + table.privileged <==> app.Registers(k)
    ensures r.Duplicates? <==> !Apart(table)
    ensures r.Duplicates? ==> forall k :: k in r.keys <==> InTwo(k, table)
    ensures r.WrongPublicRoutes? <==> Apart(table) && table.publicHealth != {("GET", "/health")}
    ensures r.Mismatch? ==> forall k ::
              && (k in r.unclassified <==> app.Registers(k) && k !in table.publicHealth + table.protectedRead + table.privileged)
              && (k in r.stale <==> !app.Registers(k) && k in table.publicHealth + table.protectedRead + table.privileged)
  {
    ApartIff(table);
    var declared, duplicates := DeclaredRoutes(table);
    if duplicates != {} {
      return Duplicates(duplicates);
    }
    if table.publicHealth != ONLY_PUBLIC {
      return WrongPublicRoutes;
    }
    var registered := RegisteredRoutes(app);
    var unclassified, stale := registered - declared, declared - registered;
    assert unclassified == {} && stale == {} <==> declared == registered by {
      assert forall k :: k in registered ==> k in declared || k in unclassified;
      assert forall k :: k in declared ==> k in registered || k in stale;
    }
    if unclassified != {} || stale != {} {
      return Mismatch(unclassified, stale);
    }
    return Accepted;
  }

  /** No key stands in two classes. */
  predicate Apart(t: Table) { t.publicHealth !! t.protectedRead && t.publicHealth !! t.privileged && t.protectedRead !! t.privileged }

  predicate InTwo(k: RouteKey, t: Table) {
    (k in t.publicHealth && k in t.protectedRead) || (k in t.publicHealth && k in t.privileged)
    || (k in t.protectedRead && k in t.privileged)
  }

  lemma ApartIff(t: Table)
    ensures t.Disjoint() <==> Apart(t)
    ensures forall k :: (exists c, d :: c != d && k in t.Of(c) && k in t.Of(d)) <==> InTwo(k, t)
  {
    assert t.Of(PublicHealth) == t.publicHealth && t.Of(ProtectedRead) == t.protectedRead && t.Of(PrivilegedOperation) == t.privileged;
    forall k ensures (exists c, d :: c != d && k in t.Of(c) && k in t.Of(d)) <==> InTwo(k, t) {
      assert forall c :: k in t.Of(c) <==> (c == PublicHealth && k in t.publicHealth) || (c == ProtectedRead && k in t.protectedRead)
                                           || (c == PrivilegedOperation && k in t.privileged);
    }
    if t.Disjoint() {
      forall k ensures !InTwo(k, t) {
        assert k !in t.Of(PublicHealth) * t.Of(ProtectedRead) && k !in t.Of(PublicHealth) * t.Of(PrivilegedOperation);
        assert k !in t.Of(ProtectedRead) * t.Of(PrivilegedOperation);
      }
      assert forall k :: k in t.publicHealth ==> !InTwo(k, t);
      assert forall k :: k in t.protectedRead ==> !InTwo(k, t);
    }
    forall c, d | Apart(t) && c != d ensures t.Of(c) * t.Of(d) == {} {
      assert forall k :: k in t.Of(c) && k in t.Of(d) ==> InTwo(k, t);
    }
  }

  method DeclaredRoutes(table: Table) returns (declared: set<RouteKey>, duplicates: set<RouteKey>)
    ensures declared == table.Declared()
    ensures forall k :: k in duplicates <==> exists c, d :: c != d && k in table.Of(c) && k in table.Of(d)
    ensures duplicates == {} <==> table.Disjoint()
  {
    declared, duplicates := {}, {};
    for i := 0 to |CLASSES|
      invariant forall k :: k in declared <==> exists j :: 0 <= j < i && k in table.Of(CLASSES[j])
      invariant forall k :: k in duplicates <==> exists j, l :: 0 <= j < l < i && k in table.Of(CLASSES[j]) && k in table.Of(CLASSES[l])
    {
      duplicates := duplicates + declared * table.Of(CLASSES[i]);
      declared := declared + table.Of(CLASSES[i]);
    }
    TableClasses(table, declared, duplicates);
  }

  lemma TableClasses(table: Table, declared: set<RouteKey>, duplicates: set<RouteKey>)
    requires forall k :: k in declared <==> exists j :: 0 <= j < 3 && k in table.Of(CLASSES[j])
    requires forall k :: k in duplicates <==> exists j, l :: 0 <= j < l < 3 && k in table.Of(CLASSES[j]) && k in table.Of(CLASSES[l])
    ensures declared == table.Declared()
    ensures forall k :: k in duplicates <==> exists c, d :: c != d && k in table.Of(c) && k in table.Of(d)
    ensures duplicates == {} <==> table.Disjoint()
  {
    assert table.Of(CLASSES[0]) == table.publicHealth && table.Of(CLASSES[1]) == table.protectedRead && table.Of(CLASSES[2]) == table.privileged;
    forall k ensures k in duplicates <==> exists c, d :: c != d && k in table.Of(c) && k in table.Of(d) {
      if c, d :| c != d && k in table.Of(c) && k in table.Of(d) {
        var j :| 0 <= j < 3 && CLASSES[j] == c;
        var l :| 0 <= l < 3 && CLASSES[l] == d;
        assert j != l;
      }
    }
    forall c, d | c != d && duplicates == {} ensures table.Of(c) * table.Of(d) == {} {
      assert forall k :: k in table.Of(c) && k in table.Of(d) ==> k in duplicates;
    }
  }

  function ClassesOf(key: RouteKey, table: Table): seq<Class> {
    Filter(CLASSES, (c: Class) => key in table.Of(c))
  }

  /** `route_security_class`: none when the key has no class or several. */
  function SecurityClass(key: RouteKey, table: Table): Option<Class> {
    var matches := ClassesOf(key, table);
    if |matches| != 1 then None else Some(matches[0])
  }

  /** After validation succeeds, each reachable route has exactly one class, the declared one; nothing
      else has a class; and only the health check is public. */
  lemma AcceptedRoutesHaveOneClass(app: App, table: Table, key: RouteKey)
    requires app.Valid() && Apart(table) && table.publicHealth == {("GET", "/health")}
    requires forall k :: k in table.publicHealth + table.protectedRead + table.privileged <==> app.Registers(k)
    ensures SecurityClass(key, table).Some? <==> app.Registers(key)
    ensures SecurityClass(key, table) == Some(PublicHealth) <==> key == ("GET", "/health")
    ensures SecurityClass(key, table) == Some(ProtectedRead) <==> key in table.protectedRead
    ensures SecurityClass(key, table) == Some(PrivilegedOperation) <==> key in table.privileged
  {
    MatchesInTable(key, table);
    assert key in table.publicHealth <==> key == ("GET", "/health");
    assert key in table.publicHealth + table.protectedRead + table.privileged <==> app.Registers(key);
  }

  lemma MatchesInTable(key: RouteKey, table: Table)
    ensures ClassesOf(key, table)
            == (if key in table.publicHealth then [PublicHealth] else [])
               + (if key in table.protectedRead then [ProtectedRead] else [])
               + (if key in table.privileged then [PrivilegedOperation] else [])
  {
    var p := (c: Class) => key in table.Of(c);
    assert CLASSES == [PublicHealth] + ([ProtectedRead] + [PrivilegedOperation]);
    FilterConcat([PublicHealth], [ProtectedRead] + [PrivilegedOperation], p);
    FilterConcat([ProtectedRead], [PrivilegedOperation], p);
  }
}
