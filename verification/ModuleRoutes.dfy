/** Public routes: the catalog check at plan time, and the gateway table used per request. */
module ModuleRoutes {
  import opened Base
  import opened Encoding
  import opened ModulePlan
  import StringOrder
  import Text

  datatype PlanError = UnknownModule | MissingDependency | IncompleteRoute | InvalidPrefix | ReservedPrefix
                     | RouteConflict | CyclicDependency
  datatype Result<+T> = Ok(value: T) | Err(error: PlanError)

  // ---------- Route predicates ----------

  predicate RouteHasPrefix(value: string, prefix: string) {
    value == prefix || prefix + "/" <= value
  }

  predicate RoutesOverlap(left: Route, right: Route) {
    && (left.verb == "*" || right.verb == "*" || left.verb == right.verb)
    && (RouteHasPrefix(left.prefix, right.prefix) || RouteHasPrefix(right.prefix, left.prefix))
  }

  /** The path lies under the prefix segment by segment, and the verbs agree. */
  ghost predicate Matches(route: Route, verb: string, path: string) {
    (route.verb == "*" || route.verb == verb) && Split(route.prefix, '/') <= Split(path, '/')
  }

  /** The textual prefix test respects segment boundaries. */
  lemma PrefixBySegments(value: string, prefix: string)
    ensures RouteHasPrefix(value, prefix) <==> Split(prefix, '/') <= Split(value, '/')
  {
    var p, v := Split(prefix, '/'), Split(value, '/');
    if prefix + "/" <= value {
      SplitConcat(prefix, value[|prefix| + 1..], '/');
      assert value == prefix + "/" + value[|prefix| + 1..];
    }
    if p <= v {
      JoinSplit(prefix, '/');
      JoinSplit(value, '/');
      if p != v {
        assert v == p + v[|p|..];
        JoinConcat(p, v[|p|..], '/');
      }
    }
  }

  lemma PrefixesOfOnePath(path: string, p: string, q: string)
    requires RouteHasPrefix(path, p) && RouteHasPrefix(path, q) && |p| <= |q|
    ensures RouteHasPrefix(q, p)
  {
    if |p| < |q| {
      assert p + "/" == path[..|p| + 1] == q[..|p| + 1];
    } else {
      assert p == path[..|p|] == q;
    }
  }

  /** Two routes overlap exactly when some request matches both. */
  lemma OverlapIffSharedRequest(left: Route, right: Route)
    ensures RoutesOverlap(left, right) <==> exists verb, path :: Matches(left, verb, path) && Matches(right, verb, path)
  {
    hide Split;
    if RoutesOverlap(left, right) {
      var verb := if left.verb == "*" then right.verb else left.verb;
      var path := if RouteHasPrefix(left.prefix, right.prefix) then left.prefix else right.prefix;
      PrefixBySegments(path, left.prefix);
      PrefixBySegments(path, right.prefix);
      assert Matches(left, verb, path) && Matches(right, verb, path);
    }
    forall verb, path | Matches(left, verb, path) && Matches(right, verb, path) ensures RoutesOverlap(left, right) {
      PrefixBySegments(path, left.prefix);
      PrefixBySegments(path, right.prefix);
      if |left.prefix| <= |right.prefix| {
        PrefixesOfOnePath(path, left.prefix, right.prefix);
      } else {
        PrefixesOfOnePath(path, right.prefix, left.prefix);
      }
    }
  }

  // ---------- Catalog check ----------

  const RESERVED: seq<string> := ["/internal", "/health", "/metrics"]

  function ValidateModuleRoute(route: Route): (e: Option<PlanError>)
    ensures e.Some? ==> e.value in {IncompleteRoute, InvalidPrefix, ReservedPrefix}
  {
    if Text.Blank(route.verb) || Text.Blank(route.prefix) then Some(IncompleteRoute)
    else if !("/" <= route.prefix) || Text.Contains(route.prefix, "//") then Some(InvalidPrefix)
    else if UnderAnyReserved(route.prefix) then Some(ReservedPrefix)
    else None
  }

  ghost predicate AllSpace(s: string) {
    forall ch | ch in s :: Text.IsSpace(ch)
  }

  /** An absolute path: an empty first segment, and no other empty one but perhaps the last. */
  ghost predicate Absolute(prefix: string) {
    var segments := Split(prefix, '/');
    |segments| >= 2 && segments[0] == "" && forall i | 0 < i < |segments| - 1 :: segments[i] != ""
  }

  lemma StartsWithSlash(s: string)
    ensures "/" <= s <==> |Split(s, '/')| >= 2 && Split(s, '/')[0] == ""
  {
  }

  lemma DoubleSlashSplits(s: string, i: nat)
    requires i + 2 <= |s| && s[i] == '/' && s[i + 1] == '/'
    ensures exists k :: 0 < k < |Split(s, '/')| - 1 && Split(s, '/')[k] == ""
  {
    hide Split;
    var a, b := s[..i], s[i + 2..];
    assert s == a + "/" + ("" + "/" + b);
    SplitConcat(a, "" + "/" + b, '/');
    SplitConcat("", b, '/');
    SplitEmpty();
    assert Split(s, '/')[|Split(a, '/')|] == "";
  }

  lemma SplitEmpty()
    ensures Split("", '/') == [""]
  {
  }

  lemma EmptySegmentJoins(s: string, k: nat)
    requires 0 < k < |Split(s, '/')| - 1 && Split(s, '/')[k] == ""
    ensures Text.Contains(s, "//")
  {
    hide Split, Join;
    JoinSplit(s, '/');
    var parts := Split(s, '/');
    var p, q := parts[..k], parts[k + 1..];
    assert parts == p + ([""] + q);
    JoinConcat(p, [""] + q, '/');
    JoinConcat([""], q, '/');
    var a := Join(p, '/');
    assert Join([""], '/') == "" by { JoinOne(); }
    assert s == a + "//" + Join(q, '/');
    assert "//" <= s[|a|..];
  }

  lemma JoinOne()
    ensures Join([""], '/') == ""
  {
  }

  lemma DoubleSlash(s: string)
    ensures Text.Contains(s, "//") <==> exists i :: 0 < i < |Split(s, '/')| - 1 && Split(s, '/')[i] == ""
  {
    hide Split;
    if Text.Contains(s, "//") {
      var i :| 0 <= i <= |s| && "//" <= s[i..];
      assert s[i..][0] == '/' && s[i..][1] == '/';
      DoubleSlashSplits(s, i);
    }
    if i :| 0 < i < |Split(s, '/')| - 1 && Split(s, '/')[i] == "" { EmptySegmentJoins(s, i); }
  }

  lemma UnderReserved(prefix: string, name: string)
    requires '/' !in name && |Split(prefix, '/')| >= 2 && Split(prefix, '/')[0] == ""
    ensures RouteHasPrefix(prefix, "/" + name) <==> Split(prefix, '/')[1] == name
  {
    var two := ["", name];
    assert Join(two, '/') == "" + "/" + name == "/" + name by { assert two[1..] == [name]; }
    SplitJoin(two, '/');
    hide Split, Join;
    PrefixBySegments(prefix, "/" + name);
  }

  /** Each route error has its own condition on the verb and on the segments of the prefix. */
  lemma RouteErrors(route: Route)
    ensures var e, segments := ValidateModuleRoute(route), Split(route.prefix, '/');
      && (e == Some(IncompleteRoute) <==> AllSpace(route.verb) || AllSpace(route.prefix))
      && (e == Some(InvalidPrefix) <==>
            !AllSpace(route.verb) && !AllSpace(route.prefix) && !Absolute(route.prefix))
      && (e == Some(ReservedPrefix) <==>
            !AllSpace(route.verb) && Absolute(route.prefix) && segments[1] in {"internal", "health", "metrics"})
      && (e.None? <==>
            !AllSpace(route.verb) && Absolute(route.prefix) && segments[1] !in {"internal", "health", "metrics"})
  {
    var prefix := route.prefix;
    Text.BlankMeaning(route.verb);
    Text.BlankMeaning(prefix);
    StartsWithSlash(prefix);
    if "/" <= prefix {
      assert prefix[0] in prefix && !Text.IsSpace('/');
      DoubleSlash(prefix);
      ReservedMeaning(prefix);
    }
    hide Split, Text.Blank, Text.Contains, Text.IsSpace, UnderAnyReserved;
  }

  predicate UnderAnyReserved(prefix: string) {
    exists r :: r in RESERVED && RouteHasPrefix(prefix, r)
  }

  lemma ReservedMeaning(prefix: string)
    requires |Split(prefix, '/')| >= 2 && Split(prefix, '/')[0] == ""
    ensures UnderAnyReserved(prefix) <==> Split(prefix, '/')[1] in {"internal", "health", "metrics"}
  {
    hide Split, RouteHasPrefix;
    UnderReserved(prefix, "internal");
    UnderReserved(prefix, "health");
    UnderReserved(prefix, "metrics");
    assert "/" + "internal" == RESERVED[0] && "/" + "health" == RESERVED[1] && "/" + "metrics" == RESERVED[2];
    assert forall r :: r in RESERVED <==> r == RESERVED[0] || r == RESERVED[1] || r == RESERVED[2];
  }

  ghost predicate RoutesValid(c: Catalog) {
    forall m, r | m in c && r in c[m].routes :: ValidateModuleRoute(r).None?
  }

  const ROUTE_ERRORS := {IncompleteRoute, InvalidPrefix, ReservedPrefix, RouteConflict}

  /** The catalog has the fault that the error names. */
  ghost predicate HasFault(c: Catalog, e: PlanError) {
    if e == RouteConflict then !NoConflict(c)
    else exists m, r :: m in c && r in c[m].routes && ValidateModuleRoute(r) == Some(e)
  }

  /** Every request has at most one owner among all catalog modules. */
  ghost predicate SingleOwner(c: Catalog) {
    forall m, n, r, q, verb, path
      | m in c && n in c && r in c[m].routes && q in c[n].routes && Matches(r, verb, path) && Matches(q, verb, path)
      :: m == n
  }

  ghost predicate NoConflict(c: Catalog) {
    forall m, n, r, q | m in c && n in c && m != n && r in c[m].routes && q in c[n].routes :: !RoutesOverlap(r, q)
  }

  lemma NoConflictIffSingleOwner(c: Catalog)
    ensures NoConflict(c) <==> SingleOwner(c)
  {
    hide Matches, RoutesOverlap;
    if NoConflict(c) {
      forall m, n, r, q, verb, path
        | m in c && n in c && r in c[m].routes && q in c[n].routes && Matches(r, verb, path) && Matches(q, verb, path)
        ensures m == n
      {
        OverlapIffSharedRequest(r, q);
      }
    }
    if SingleOwner(c) {
      forall m, n, r, q | m in c && n in c && m != n && r in c[m].routes && q in c[n].routes
        ensures !RoutesOverlap(r, q)
      {
        OverlapIffSharedRequest(r, q);
      }
    }
  }

  datatype Owned = Owned(owner: string, route: Route)

  /** Some already accepted route of another module overlaps `o`. */
  predicate ClashesWith(seen: seq<Owned>, o: Owned) {
    exists e :: e in seen && e.owner != o.owner && RoutesOverlap(e.route, o.route)
  }

  method FindClash(seen: seq<Owned>, o: Owned) returns (clash: bool)
    ensures clash == ClashesWith(seen, o)
  {
    clash := false;
    for k := 0 to |seen|
      invariant !ClashesWith(seen[..k], o)
    {
      assert seen[..k + 1] == seen[..k] + [seen[k]];
      if seen[k].owner != o.owner && RoutesOverlap(seen[k].route, o.route) {
        return true;
      }
    }
    assert seen[..|seen|] == seen;
  }

  /** `seen` lists exactly the routes of the modules in `done` and the first `k` of `m`; all valid, none clashing. */
  ghost predicate Accepted(c: Catalog, done: set<string>, m: string, k: nat, seen: seq<Owned>)
    requires done <= c.Keys && (m in c ==> k <= |c[m].routes|)
  {
    && (forall o :: o in seen <==>
          || (o.owner in done && o.route in c[o.owner].routes)
          || (o.owner == m && m in c && o.route in c[m].routes[..k]))
    && (forall o | o in seen :: ValidateModuleRoute(o.route).None?)
    && forall o, e | o in seen && e in seen && o.owner != e.owner :: !RoutesOverlap(o.route, e.route)
  }

  lemma AcceptRoute(c: Catalog, done: set<string>, m: string, k: nat, seen: seq<Owned>)
    requires done <= c.Keys && m in c && k < |c[m].routes| && Accepted(c, done, m, k, seen)
    requires ValidateModuleRoute(c[m].routes[k]).None? && !ClashesWith(seen, Owned(m, c[m].routes[k]))
    ensures Accepted(c, done, m, k + 1, seen + [Owned(m, c[m].routes[k])])
  {
    hide ValidateModuleRoute, RouteHasPrefix;
    var routes := c[m].routes;
    assert routes[..k + 1] == routes[..k] + [routes[k]];
  }

  /** Finishing one module and starting the next changes nothing but the bookkeeping. */
  lemma AcceptModule(c: Catalog, done: set<string>, m: string, next: string, seen: seq<Owned>)
    requires done <= c.Keys && m in c && Accepted(c, done, m, |c[m].routes|, seen)
    ensures Accepted(c, done + {m}, next, 0, seen)
  {
    hide ValidateModuleRoute, RoutesOverlap;
    assert c[m].routes[..|c[m].routes|] == c[m].routes;
  }

  /** The body of the catalog loop: check one module's routes against those accepted so far. */
  method CheckModuleRoutes(c: Catalog, ghost done: set<string>, m: string, seen0: seq<Owned>)
    returns (e: Option<PlanError>, seen: seq<Owned>)
    requires done <= c.Keys && m in c && Accepted(c, done, m, 0, seen0)
    ensures e.None? ==> Accepted(c, done, m, |c[m].routes|, seen)
    ensures e.Some? ==> !(RoutesValid(c) && NoConflict(c))
    ensures e.Some? ==> e.value in ROUTE_ERRORS && HasFault(c, e.value)
  {
    hide ValidateModuleRoute, RoutesOverlap, Accepted, NoConflict, ClashesWith;
    seen := seen0;
    var routes := c[m].routes;
    for k := 0 to |routes|
      invariant Accepted(c, done, m, k, seen)
    {
      e := ValidateModuleRoute(routes[k]);
      if e.Some? {
        assert routes[k] in c[m].routes && e.value != RouteConflict;
        return;
      }
      var clash := FindClash(seen, Owned(m, routes[k]));
      if clash {
        ClashIsConflict(c, done, m, k, seen);
        e := Some(RouteConflict);
        return;
      }
      AcceptRoute(c, done, m, k, seen);
      seen := seen + [Owned(m, routes[k])];
    }
    e := None;
  }

  /** validateCatalogRoutes: passes exactly when every route is valid and no request has two owners; otherwise it
      names a fault the catalog has, which one depending on the order of the map. */
  method ValidateCatalogRoutes(c: Catalog) returns (e: Option<PlanError>)
    ensures e.None? <==> RoutesValid(c) && SingleOwner(c)
    ensures e.Some? ==> e.value in ROUTE_ERRORS && HasFault(c, e.value)
  {
    hide RoutesValid, HasFault, SingleOwner, NoConflict, Accepted;
    NoConflictIffSingleOwner(c);
    NothingAccepted(c);
    var seen: seq<Owned> := [];
    var todo := c.Keys;
    ghost var done: set<string> := {};
    while todo != {}
      invariant done !! todo && done + todo == c.Keys
      invariant Accepted(c, done, "", 0, seen)
      decreases |todo|
    {
      var m :| m in todo;
      AcceptNextModule(c, done, m, seen);
      e, seen := CheckModuleRoutes(c, done, m, seen);
      if e.Some? {
        return;
      }
      AcceptModule(c, done, m, "", seen);
      todo, done := todo - {m}, done + {m};
    }
    assert done == c.Keys;
    AllAccepted(c, seen);
    e := None;
  }

  lemma NothingAccepted(c: Catalog)
    ensures Accepted(c, {}, "", 0, [])
  {
  }

  lemma AcceptNextModule(c: Catalog, done: set<string>, m: string, seen: seq<Owned>)
    requires done <= c.Keys && m in c && Accepted(c, done, "", 0, seen)
    ensures Accepted(c, done, m, 0, seen)
  {
    hide ValidateModuleRoute, RoutesOverlap;
  }

  lemma ClashIsConflict(c: Catalog, done: set<string>, m: string, k: nat, seen: seq<Owned>)
    requires done <= c.Keys && m in c && k < |c[m].routes| && Accepted(c, done, m, k, seen)
    requires ClashesWith(seen, Owned(m, c[m].routes[k]))
    ensures !NoConflict(c)
  {
    hide ValidateModuleRoute, RoutesOverlap;
    var e :| e in seen && e.owner != m && RoutesOverlap(e.route, c[m].routes[k]);
  }

  lemma AllAccepted(c: Catalog, seen: seq<Owned>)
    requires Accepted(c, c.Keys, "", 0, seen)
    ensures RoutesValid(c) && NoConflict(c)
  {
    hide ValidateModuleRoute, RoutesOverlap;
    forall m, r | m in c && r in c[m].routes ensures Owned(m, r) in seen {}
    forall m, r | m in c && r in c[m].routes ensures ValidateModuleRoute(r).None? {
      assert Owned(m, r) in seen;
    }
    forall m, n, r, q | m in c && n in c && m != n && r in c[m].routes && q in c[n].routes
      ensures !RoutesOverlap(r, q)
    {
      var o, e := Owned(m, r), Owned(n, q);
      assert o in seen && e in seen && o.owner != e.owner;
      assert !RoutesOverlap(o.route, e.route);
    }
  }

  // ---------- Resolving a plan ----------

  /** validateEnabledDependencies. */
  method ValidateEnabledDependencies(c: Catalog, enabled: set<string>) returns (ok: bool)
    ensures ok == Closed(c, enabled)
  {
    var todo := enabled;
    while todo != {}
      invariant todo <= enabled && forall m, d | m in enabled - todo && DependsOn(c, m, d) :: d in enabled
      decreases |todo|
    {
      var m :| m in todo;
      var deps := Declared(c, m);
      for k := 0 to |deps|
        invariant forall d | d in deps[..k] && d != "core" :: d in enabled
      {
        assert deps[..k + 1] == deps[..k] + [deps[k]];
        if deps[k] != "core" && deps[k] !in enabled {
          assert DependsOn(c, m, deps[k]);
          return false;
        }
      }
      assert deps[..|deps|] == deps;
      todo := todo - {m};
    }
    ok := true;
  }

  /** ResolveModulePlan up to the deployment settings: `selected` are the ids whose configured version is enabled.
      The clauses give each error its exact condition, in the order the checks are made. */
  method ResolveModulePlan(c: Catalog, selected: set<string>) returns (r: Result<seq<string>>)
    ensures r == Err(UnknownModule) <==> !(selected <= c.Keys)
    ensures r == Err(MissingDependency) <==> selected <= c.Keys && !Closed(c, selected)
    ensures r == Err(CyclicDependency) <==>
            selected <= c.Keys && Closed(c, selected) && RoutesValid(c) && SingleOwner(c) && HasCycle(c, selected)
    ensures r.Err? && r.error in ROUTE_ERRORS <==>
            selected <= c.Keys && Closed(c, selected) && !(RoutesValid(c) && SingleOwner(c))
    ensures r.Err? && r.error in ROUTE_ERRORS ==> HasFault(c, r.error)
    ensures r.Ok? <==>
            selected <= c.Keys && Closed(c, selected) && RoutesValid(c) && SingleOwner(c) && !HasCycle(c, selected)
    ensures r.Ok? ==> IsTopological(c, selected, r.value)
    ensures r.Ok? ==> forall t | IsTopological(c, selected, t) :: t == r.value || StringOrder.ListLess(r.value, t)
  {
    hide Closed, RoutesValid, SingleOwner, HasFault, HasCycle, IsTopological, StringOrder.ListLess;
    if !(selected <= c.Keys) { return Err(UnknownModule); }
    var closed := ValidateEnabledDependencies(c, selected);
    if !closed { return Err(MissingDependency); }
    var e := ValidateCatalogRoutes(c);
    if e.Some? { return Err(e.value); }
    var order := OrderedEnabledModules(c, selected);
    r := if order.None? then Err(CyclicDependency) else Ok(order.value);
  }

  // ---------- The gateway table ----------

  /** The verb or the prefix has nothing but white space. */
  ghost predicate Incomplete(route: Route) {
    AllSpace(route.verb) || AllSpace(route.prefix)
  }

  lemma IncompleteMeaning(route: Route)
    ensures Incomplete(route) <==> Text.Blank(route.verb) || Text.Blank(route.prefix)
  {
    hide Text.Blank, Text.IsSpace;
    Text.BlankMeaning(route.verb);
    Text.BlankMeaning(route.prefix);
  }

  /** NewModuleRouteTable: the rows of the external modules of the plan, or an error for an incomplete route. */
  method NewModuleRouteTable(c: Catalog, plan: seq<string>) returns (r: Result<seq<Owned>>)
    requires forall m | m in plan :: m in c
    ensures r.Ok? ==> forall o ::
              o in r.value <==> o.owner in plan && c[o.owner].external && o.route in c[o.owner].routes
    ensures r.Err? <==> exists m, route ::
              m in plan && c[m].external && route in c[m].routes && Incomplete(route)
  {
    hide Incomplete;
    var rows: seq<Owned> := [];
    for i := 0 to |plan|
      invariant forall o :: o in rows <==> o.owner in plan[..i] && c[o.owner].external && o.route in c[o.owner].routes
      invariant forall m, route | m in plan[..i] && c[m].external && route in c[m].routes :: !Incomplete(route)
    {
      assert plan[..i + 1] == plan[..i] + [plan[i]];
      if c[plan[i]].external {
        var more := ModuleRows(plan[i], c[plan[i]].routes);
        if more.Err? {
          return Err(IncompleteRoute);
        }
        rows := rows + more.value;
      }
    }
    assert plan[..|plan|] == plan;
    r := Ok(rows);
  }

  method ModuleRows(owner: string, routes: seq<Route>) returns (r: Result<seq<Owned>>)
    ensures r.Ok? ==> forall o :: o in r.value <==> o.owner == owner && o.route in routes
    ensures r.Err? <==> exists route :: route in routes && Incomplete(route)
  {
    hide Incomplete, Text.Blank;
    var rows: seq<Owned> := [];
    for k := 0 to |routes|
      invariant forall o :: o in rows <==> o.owner == owner && o.route in routes[..k]
      invariant forall route | route in routes[..k] :: !Incomplete(route)
    {
      assert routes[..k + 1] == routes[..k] + [routes[k]];
      IncompleteMeaning(routes[k]);
      if Text.Blank(routes[k].verb) || Text.Blank(routes[k].prefix) { return Err(IncompleteRoute); }
      rows := rows + [Owned(owner, routes[k])];
    }
    assert routes[..|routes|] == routes;
    r := Ok(rows);
  }

  /** Owner and prefix length after scanning `rows`: a later row wins only with a strictly longer prefix. */
  ghost function Scan(rows: seq<Owned>, verb: string, path: string): (string, nat) {
    if rows == [] then ("", 0)
    else
      var before, row := Scan(rows[..|rows| - 1], verb, path), rows[|rows| - 1];
      if Matches(row.route, verb, path) && |row.route.prefix| > before.1 then (row.owner, |row.route.prefix|)
          else before
  }

  /** ModuleRouteTable.Match. */
  method Match(rows: seq<Owned>, verb: string, path: string) returns (owner: string, found: bool)
    ensures owner == Scan(rows, verb, path).0 && found == (owner != "")
  {
    var matchLen := 0;
    owner := "";
    for i := 0 to |rows|
      invariant (owner, matchLen) == Scan(rows[..i], verb, path)
    {
      assert rows[..i + 1][..i] == rows[..i];
      var route := rows[i].route;
      PrefixBySegments(path, route.prefix);
      if route.verb != "*" && route.verb != verb { continue; }
      if path != route.prefix && !(route.prefix + "/" <= path) { continue; }
      if |route.prefix| <= matchLen { continue; }
      owner, matchLen := rows[i].owner, |route.prefix|;
    }
    assert rows[..|rows|] == rows;
    found := owner != "";
  }

  lemma {:induction false} ScanFindsMatch(rows: seq<Owned>, verb: string, path: string)
    ensures Scan(rows, verb, path).1 > 0 ==>
              exists o :: o in rows && o.owner == Scan(rows, verb, path).0 && Matches(o.route, verb, path)
    ensures Scan(rows, verb, path).1 == 0 ==> Scan(rows, verb, path).0 == ""
    ensures forall o | o in rows && Matches(o.route, verb, path) :: |o.route.prefix| <= Scan(rows, verb, path).1
  {
    hide Matches;
    if rows != [] {
      var rest := rows[..|rows| - 1];
      ScanFindsMatch(rest, verb, path);
      assert rows == rest + [rows[|rows| - 1]];
    }
  }

  /** For a table built from a catalog that passed the check, in any row order: the request goes to `m` exactly when
      `m` is an enabled external module with a matching route. */
  lemma MatchReturnsTheOwner(c: Catalog, plan: seq<string>, rows: seq<Owned>, verb: string, path: string, m: string)
    requires RoutesValid(c) && SingleOwner(c) && "" !in c && forall x | x in plan :: x in c
    requires forall o :: o in rows <==> o.owner in plan && c[o.owner].external && o.route in c[o.owner].routes
    ensures m != "" && Scan(rows, verb, path).0 == m <==>
            m in plan && c[m].external && exists route :: route in c[m].routes && Matches(route, verb, path)
  {
    hide Matches, Scan;
    ScanFindsMatch(rows, verb, path);
    var (owner, len) := Scan(rows, verb, path);
    if m in plan && c[m].external && exists route :: route in c[m].routes && Matches(route, verb, path) {
      var route :| route in c[m].routes && Matches(route, verb, path);
      assert Owned(m, route) in rows;
      ValidPrefixNonempty(route);
      var o :| o in rows && o.owner == owner && Matches(o.route, verb, path);
      assert o.owner == m;
    }
  }

  lemma ValidPrefixNonempty(route: Route)
    requires ValidateModuleRoute(route).None?
    ensures |route.prefix| > 0
  {
  }
}
