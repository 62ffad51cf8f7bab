/** The start-up order of enabled modules (Kahn's algorithm with a sorted ready list).
    The catalog is a parameter. Every `for … range` over a Go map is an arbitrary choice of the
    next key, so each contract holds for every iteration order. */
module ModulePlan {
  import opened Base
  import opened StringOrder

  datatype Route = Route(verb: string, prefix: string)
  datatype Definition = Definition(external: bool, deps: seq<string>, routes: seq<Route>)
  type Catalog = map<string, Definition>

  // ---------- Dependency graph ----------

  /** Declared dependencies without the implicit root `core`. */
  function NonCore(deps: seq<string>): seq<string> {
    if deps == [] then []
    else
      var rest, last := NonCore(deps[..|deps| - 1]), deps[|deps| - 1];
      if last == "core" then rest else rest + [last]
  }

  /** A missing catalog entry reads as one without dependencies. */
  function Declared(c: Catalog, m: string): seq<string> {
    if m in c then c[m].deps else []
  }

  /** Module `m` declares a dependency on `d` other than the implicit root. */
  ghost predicate DependsOn(c: Catalog, m: string, d: string) {
    m in c && d in c[m].deps && d != "core"
  }

  /** Exactly the entries for `core` are left out. */
  lemma {:induction false} NonCoreCounts(deps: seq<string>)
    ensures forall d :: multiset(NonCore(deps))[d] == if d == "core" then 0 else multiset(deps)[d]
    ensures |NonCore(deps)| == |deps| - multiset(deps)["core"]
  {
    if deps != [] {
      var rest, last := deps[..|deps| - 1], deps[|deps| - 1];
      NonCoreCounts(rest);
      assert deps == rest + [last];
    }
  }

  lemma NonCoreMembers(c: Catalog, m: string, d: string)
    ensures d in NonCore(Declared(c, m)) <==> DependsOn(c, m, d)
  {
    var deps := Declared(c, m);
    NonCoreCounts(deps);
    assert d in NonCore(deps) <==> d in multiset(NonCore(deps));
    assert d in deps <==> d in multiset(deps);
  }

  function Deps(c: Catalog, m: string): (r: seq<string>)
    ensures forall d :: d in r <==> DependsOn(c, m, d)
  {
    assert forall d :: d in NonCore(Declared(c, m)) <==> DependsOn(c, m, d) by {
      forall d { NonCoreMembers(c, m, d); }
    }
    NonCore(Declared(c, m))
  }

  function Elems(s: seq<string>): set<string> {
    set x | x in s
  }

  ghost predicate Distinct(s: seq<string>) {
    forall i, j | 0 <= i < j < |s| :: s[i] != s[j]
  }

  /** Every non-core dependency of an enabled module is enabled. */
  ghost predicate Closed(c: Catalog, enabled: set<string>) {
    forall m, d | m in enabled && DependsOn(c, m, d) :: d in enabled
  }

  ghost predicate DependenciesFirst(c: Catalog, t: seq<string>) {
    forall i, d | 0 <= i < |t| && DependsOn(c, t[i], d) :: d in t[..i]
  }

  /** `t` lists exactly the enabled modules, once each, dependencies first. */
  ghost predicate IsTopological(c: Catalog, enabled: set<string>, t: seq<string>) {
    && Distinct(t)
    && Elems(t) == enabled
    && DependenciesFirst(c, t)
  }

  /** A closed walk along dependency edges through enabled modules. */
  ghost predicate IsCycle(c: Catalog, enabled: set<string>, p: seq<string>) {
    && |p| >= 2
    && p[0] == p[|p| - 1]
    && (forall i | 0 <= i < |p| :: p[i] in enabled)
    && forall i | 0 <= i < |p| - 1 :: DependsOn(c, p[i], p[i + 1])
  }

  ghost predicate HasCycle(c: Catalog, enabled: set<string>) {
    exists p :: IsCycle(c, enabled, p)
  }

  /** Modules that may be placed next once `placed` are. */
  ghost function Ready(c: Catalog, enabled: set<string>, placed: set<string>): set<string> {
    set m | m in enabled && m !in placed && forall d | DependsOn(c, m, d) :: d in placed
  }

  /** Every element was the smallest ready module at its turn. */
  ghost predicate Greedy(c: Catalog, enabled: set<string>, order: seq<string>) {
    forall k | 0 <= k < |order| ::
      && order[k] in Ready(c, enabled, Elems(order[..k]))
      && forall m | m in Ready(c, enabled, Elems(order[..k])) :: !Less(m, order[k])
  }

  // ---------- Pending-dependency counts ----------

  /** How many entries of `ds` are still waiting for a module outside `placed`. */
  function Waiting(ds: seq<string>, placed: set<string>): nat {
    if ds == [] then 0
    else Waiting(ds[..|ds| - 1], placed) + if ds[|ds| - 1] in placed then 0 else 1
  }

  lemma {:induction false} WaitingNothingPlaced(ds: seq<string>)
    ensures Waiting(ds, {}) == |ds|
  {
    if ds != [] { WaitingNothingPlaced(ds[..|ds| - 1]); }
  }

  lemma {:induction false} WaitingZero(ds: seq<string>, placed: set<string>)
    ensures Waiting(ds, placed) == 0 <==> forall d | d in ds :: d in placed
  {
    if ds != [] {
      var rest := ds[..|ds| - 1];
      WaitingZero(rest, placed);
      assert ds == rest + [ds[|ds| - 1]];
    }
  }

  /** Placing `x` satisfies every entry that names it, duplicates included. */
  lemma {:induction false} WaitingAfterPlacing(ds: seq<string>, placed: set<string>, x: string)
    requires x !in placed
    ensures Waiting(ds, placed) == Waiting(ds, placed + {x}) + multiset(ds)[x]
  {
    if ds != [] {
      var rest := ds[..|ds| - 1];
      WaitingAfterPlacing(rest, placed, x);
      assert ds == rest + [ds[|ds| - 1]];
    }
  }

  // ---------- The greedy order is the least topological order ----------

  lemma GreedyIsLeast(c: Catalog, enabled: set<string>, order: seq<string>, t: seq<string>)
    requires Greedy(c, enabled, order) && IsTopological(c, enabled, order)
    requires IsTopological(c, enabled, t)
    ensures t == order || ListLess(order, t)
  {
    DistinctLength(order);
    DistinctLength(t);
    if t != order {
      var k := FirstDifference(order, t);
      assert t[k] in enabled by { assert t[k] in Elems(t); }
      assert t[k] in Ready(c, enabled, Elems(order[..k]));
      LessTotal(order[k], t[k]);
    }
  }

  lemma {:induction false} DistinctSize<T>(s: seq<T>)
    requires forall i, j | 0 <= i < j < |s| :: s[i] != s[j]
    ensures |s| == |set x | x in s|
  {
    if s != [] {
      var rest, last := s[..|s| - 1], s[|s| - 1];
      DistinctSize(rest);
      assert last !in rest;
      assert (set x | x in s) == (set x | x in rest) + {last} by { assert s == rest + [last]; }
    }
  }

  lemma DistinctLength(s: seq<string>)
    requires Distinct(s)
    ensures |s| == |Elems(s)|
  {
    DistinctSize(s);
  }

  lemma {:induction false} FirstDifference(a: seq<string>, b: seq<string>) returns (k: nat)
    requires |a| == |b| && a != b
    ensures k < |a| && a[..k] == b[..k] && a[k] != b[k]
  {
    k := 0;
    while k < |a| && a[k] == b[k]
      invariant k <= |a| && a[..k] == b[..k]
    {
      k := k + 1;
    }
    assert a[..|a|] == a && b[..|b|] == b;
  }

  /** The first unplaced module of a topological order is ready. */
  lemma OrderHasReady(c: Catalog, enabled: set<string>, placed: set<string>, t: seq<string>)
    requires placed < enabled && IsTopological(c, enabled, t)
    ensures Ready(c, enabled, placed) != {}
  {
    hide Deps;
    var m :| m in enabled && m !in placed;
    assert m in Elems(t);
    var i := 0;
    while t[i] in placed
      invariant 0 <= i < |t| && m in t[i..] && forall j | 0 <= j < i :: t[j] in placed
      decreases |t| - i
    {
      i := i + 1;
    }
    assert t[i] in Elems(t);
    assert t[i] in Ready(c, enabled, placed);
  }

  // ---------- No order exactly when there is a cycle ----------

  lemma CycleMeansNoOrder(c: Catalog, enabled: set<string>, p: seq<string>, t: seq<string>)
    requires IsCycle(c, enabled, p)
    ensures !IsTopological(c, enabled, t)
  {
    if IsTopological(c, enabled, t) {
      assert p[0] in Elems(t);
      var start :| 0 <= start < |t| && t[start] == p[0];
      var at, i := start, 0;
      while i < |p| - 1
        invariant 0 <= i <= |p| - 1 && 0 <= at <= start && t[at] == p[i] && (i > 0 ==> at < start)
      {
        assert DependsOn(c, t[at], p[i + 1]);
        var before :| 0 <= before < at && t[before] == p[i + 1];
        at, i := before, i + 1;
      }
      assert false;
    }
  }

  /** When modules are left over and none is ready, following what they wait for runs into a cycle. */
  lemma StuckMeansCycle(c: Catalog, enabled: set<string>, placed: set<string>)
    requires placed < enabled && Ready(c, enabled, placed) == {} && Closed(c, enabled)
    ensures HasCycle(c, enabled)
  {
    hide DependsOn;
    forall m | m in enabled - placed ensures exists d :: DependsOn(c, m, d) && d in enabled - placed {
      assert m !in Ready(c, enabled, placed);
      var d :| DependsOn(c, m, d) && d !in placed;
    }
    var x :| x in enabled && x !in placed;
    assert x in enabled - placed;
    WaitsMeanCycle(c, enabled, enabled - placed);
  }

  /** A walk along dependency edges inside `stuck`. */
  ghost predicate IsWalk(c: Catalog, stuck: set<string>, walk: seq<string>) {
    && walk != [] && (forall i | 0 <= i < |walk| :: walk[i] in stuck)
    && forall i | 0 <= i < |walk| - 1 :: DependsOn(c, walk[i], walk[i + 1])
  }

  lemma WalkOn(c: Catalog, stuck: set<string>, walk: seq<string>) returns (longer: seq<string>)
    requires IsWalk(c, stuck, walk)
    requires forall m | m in stuck :: exists d :: DependsOn(c, m, d) && d in stuck
    ensures IsWalk(c, stuck, longer) && |longer| == |walk| + 1
  {
    hide DependsOn;
    var last := walk[|walk| - 1];
    var next :| DependsOn(c, last, next) && next in stuck;
    longer := walk + [next];
  }

  lemma WalkFits(c: Catalog, stuck: set<string>, walk: seq<string>)
    requires IsWalk(c, stuck, walk) && Distinct(walk)
    ensures |walk| <= |stuck|
  {
    DistinctLength(walk);
    SubsetCardinality(Elems(walk), stuck);
  }

  lemma WaitsMeanCycle(c: Catalog, enabled: set<string>, stuck: set<string>)
    requires stuck != {} && stuck <= enabled
    requires forall m | m in stuck :: exists d :: DependsOn(c, m, d) && d in stuck
    ensures HasCycle(c, enabled)
  {
    var first :| first in stuck;
    var walk := [first];
    assert IsWalk(c, stuck, walk);
    hide DependsOn, IsWalk, Distinct, HasCycle;
    while Distinct(walk)
      invariant IsWalk(c, stuck, walk)
      decreases |stuck| + 1 - |walk|
    {
      WalkFits(c, stuck, walk);
      walk := WalkOn(c, stuck, walk);
    }
    WalkCloses(c, enabled, stuck, walk);
  }

  lemma WalkCloses(c: Catalog, enabled: set<string>, stuck: set<string>, walk: seq<string>)
    requires stuck <= enabled && IsWalk(c, stuck, walk) && !Distinct(walk)
    ensures HasCycle(c, enabled)
  {
    hide DependsOn, HasCycle;
    var i, j :| 0 <= i < j < |walk| && walk[i] == walk[j];
    CutCycle(c, enabled, walk, i, j);
  }

  lemma CutCycle(c: Catalog, enabled: set<string>, walk: seq<string>, i: nat, j: nat)
    requires i < j < |walk| && walk[i] == walk[j]
    requires forall k | 0 <= k < |walk| :: walk[k] in enabled
    requires forall k | 0 <= k < |walk| - 1 :: DependsOn(c, walk[k], walk[k + 1])
    ensures HasCycle(c, enabled)
  {
    hide DependsOn;
    var p := walk[i..j + 1];
    forall k | 0 <= k < |p| - 1 ensures DependsOn(c, p[k], p[k + 1]) {
      assert p[k + 1] == walk[i + k + 1] && p[k] == walk[i + k];
    }
    assert IsCycle(c, enabled, p);
  }

  lemma {:induction false} SubsetCardinality(a: set<string>, b: set<string>)
    requires a <= b
    ensures |a| <= |b|
  {
    if a != {} {
      var x :| x in a;
      SubsetCardinality(a - {x}, b - {x});
    }
  }

  // ---------- The algorithm ----------

  function DependentsOf(dependents: map<string, seq<string>>, m: string): seq<string> {
    if m in dependents then dependents[m] else []
  }

  /** How often `m` is registered with `x`. */
  ghost function Edges(dependents: map<string, seq<string>>, x: string, m: string): nat {
    multiset(DependentsOf(dependents, x))[m]
  }

  /** What the two tables hold after the modules in `done` have been read from the catalog. */
  ghost predicate TablesBuilt(c: Catalog, enabled: set<string>, done: set<string>,
                              indegree: map<string, int>, dependents: map<string, seq<string>>)
  {
    && indegree.Keys == enabled
    && (forall m | m in enabled :: indegree[m] == if m in done then |Deps(c, m)| else 0)
    && forall x, m :: Edges(dependents, x, m) == if m in done then multiset(Deps(c, m))[x] else 0
  }

  /** The dependents table after `m` has been appended under each of its dependencies. */
  function Register(ds: seq<string>, m: string, dependents: map<string, seq<string>>): map<string, seq<string>> {
    if ds == [] then dependents
    else
      var before, d := Register(ds[..|ds| - 1], m, dependents), ds[|ds| - 1];
      before[d := DependentsOf(before, d) + [m]]
  }

  lemma {:induction false} RegisterAddsEdges(ds: seq<string>, m: string, dependents: map<string, seq<string>>,
                                             x: string, y: string)
    ensures Edges(Register(ds, m, dependents), x, y) == Edges(dependents, x, y) + if y == m then multiset(ds)[x] else 0
  {
    if ds != [] {
      var rest := ds[..|ds| - 1];
      RegisterAddsEdges(rest, m, dependents, x, y);
      assert ds == rest + [ds[|ds| - 1]];
    }
  }

  /** Read one module's dependency list: count it, and register the module with each dependency. */
  method ReadModule(deps: seq<string>, m: string, indegree0: map<string, int>, dependents0: map<string, seq<string>>)
    returns (indegree: map<string, int>, dependents: map<string, seq<string>>)
    requires m in indegree0
    ensures indegree == indegree0[m := indegree0[m] + |NonCore(deps)|]
    ensures dependents == Register(NonCore(deps), m, dependents0)
  {
    indegree, dependents := indegree0, dependents0;
    var k := 0;
    while k < |deps|
      invariant 0 <= k <= |deps|
      invariant indegree == indegree0[m := indegree0[m] + |NonCore(deps[..k])|]
      invariant dependents == Register(NonCore(deps[..k]), m, dependents0)
    {
      assert deps[..k + 1][..k] == deps[..k];
      ghost var next := NonCore(deps[..k]) + [deps[k]];
      assert next[..|next| - 1] == NonCore(deps[..k]);
      if deps[k] != "core" {
        indegree := indegree[m := indegree[m] + 1];
        dependents := dependents[deps[k] := DependentsOf(dependents, deps[k]) + [m]];
      }
      k := k + 1;
    }
    assert deps[..k] == deps;
  }

  lemma ReadOneMore(c: Catalog, enabled: set<string>, done: set<string>, m: string,
                    indegree: map<string, int>, dependents: map<string, seq<string>>)
    requires TablesBuilt(c, enabled, done, indegree, dependents) && m in enabled && m !in done
    ensures var deps := NonCore(Declared(c, m));
            TablesBuilt(c, enabled, done + {m}, indegree[m := indegree[m] + |deps|], Register(deps, m, dependents))
  {
    hide Edges, Register, NonCore;
    forall x, y { RegisterAddsEdges(Deps(c, m), m, dependents, x, y); }
  }

  lemma EmptyTables(c: Catalog, enabled: set<string>, indegree: map<string, int>)
    requires indegree.Keys == enabled && forall m | m in enabled :: indegree[m] == 0
    ensures TablesBuilt(c, enabled, {}, indegree, map[])
  {
    hide Deps;
  }

  method BuildTables(c: Catalog, enabled: set<string>)
    returns (indegree: map<string, int>, dependents: map<string, seq<string>>)
    ensures TablesBuilt(c, enabled, enabled, indegree, dependents)
    ensures indegree.Keys == enabled
    ensures forall m | m in enabled :: indegree[m] == |Declared(c, m)| - multiset(Declared(c, m))["core"]
    ensures forall x, m :: Edges(dependents, x, m) ==
              if m in enabled && x != "core" then multiset(Declared(c, m))[x] else 0
  {
    hide *;
    indegree := map m | m in enabled :: 0;
    dependents := map[];
    ghost var done: set<string> := {};
    EmptyTables(c, enabled, indegree);
    var todo := enabled;
    while todo != {}
      invariant done !! todo && done + todo == enabled
      invariant indegree.Keys == enabled && TablesBuilt(c, enabled, done, indegree, dependents)
      decreases |todo|
    {
      var m :| m in todo;
      ReadOneMore(c, enabled, done, m, indegree, dependents);
      indegree, dependents := ReadModule(Declared(c, m), m, indegree, dependents);
      todo, done := todo - {m}, done + {m};
    }
    assert done == enabled;
    TablesMean(c, enabled, indegree, dependents);
  }

  lemma TablesMean(c: Catalog, enabled: set<string>, indegree: map<string, int>, dependents: map<string, seq<string>>)
    requires TablesBuilt(c, enabled, enabled, indegree, dependents)
    ensures indegree.Keys == enabled
    ensures forall m | m in enabled :: indegree[m] == |Declared(c, m)| - multiset(Declared(c, m))["core"]
    ensures forall x, m :: Edges(dependents, x, m) ==
              if m in enabled && x != "core" then multiset(Declared(c, m))[x] else 0
  {
    forall m { NonCoreCounts(Declared(c, m)); }
    hide NonCore, Declared, Edges;
  }

  /** The loop state between two turns of the main loop. */
  ghost predicate LoopState(c: Catalog, enabled: set<string>, indegree: map<string, int>,
                            ready: seq<string>, order: seq<string>)
  {
    && Distinct(order) && Elems(order) <= enabled && Greedy(c, enabled, order)
    && DependenciesFirst(c, order)
    && indegree.Keys == enabled
    && (forall m | m in enabled :: indegree[m] == Waiting(Deps(c, m), Elems(order)))
    && Distinct(ready) && Sorted(ready)
    && Elems(ready) == Ready(c, enabled, Elems(order))
  }

  /** Once `m` is placed, a module is ready if it was before, or if `m` was all it waited for. */
  lemma ReadyAfterPlacing(c: Catalog, enabled: set<string>, placed: set<string>, m: string, x: string)
    requires m in Ready(c, enabled, placed)
    requires forall y, d | y in placed && d in Deps(c, y) :: d in placed
    ensures x in Ready(c, enabled, placed + {m}) <==>
            || x in Ready(c, enabled, placed) - {m}
            || (x in enabled && m in Deps(c, x) && Waiting(Deps(c, x), placed + {m}) == 0)
    ensures m in Deps(c, x) ==> x !in Ready(c, enabled, placed)
  {
    hide Deps, Waiting;
    WaitingZero(Deps(c, x), placed);
    WaitingZero(Deps(c, x), placed + {m});
    WaitingAfterPlacing(Deps(c, x), placed, m);
  }

  /** Count each listed dependent down by one; those reaching zero join the ready list. */
  method CountDown(indegree0: map<string, int>, ready0: seq<string>, ds: seq<string>)
    returns (indegree: map<string, int>, ready: seq<string>)
    requires Distinct(ready0)
    requires forall x | x in ds :: x in indegree0 && x !in ready0 && multiset(ds)[x] <= indegree0[x]
    ensures indegree.Keys == indegree0.Keys
    ensures forall x | x in indegree :: indegree[x] == indegree0[x] - multiset(ds)[x]
    ensures Distinct(ready)
    ensures forall x :: x in ready <==> x in ready0 || (x in ds && indegree[x] == 0)
  {
    indegree, ready := indegree0, ready0;
    var k := 0;
    while k < |ds|
      invariant 0 <= k <= |ds|
      invariant indegree.Keys == indegree0.Keys
      invariant forall x | x in indegree :: indegree[x] - multiset(ds[k..])[x] == indegree0[x] - multiset(ds)[x]
      invariant Distinct(ready)
      invariant forall x :: x in ready <==> x in ready0 || (x in ds && indegree[x] == 0)
    {
      var x := ds[k];
      assert ds[k..] == [x] + ds[k + 1..];
      indegree := indegree[x := indegree[x] - 1];
      if indegree[x] == 0 {
        ready := ready + [x];
      }
      k := k + 1;
    }
  }

  /** The dependents of the next module are exactly those whose counts must drop. */
  lemma DependentsWait(c: Catalog, enabled: set<string>, placed: set<string>, m: string, ds: seq<string>)
    requires m in Ready(c, enabled, placed)
    requires forall x, d | x in placed && d in Deps(c, x) :: d in placed
    requires forall x :: multiset(ds)[x] == if x in enabled then multiset(Deps(c, x))[m] else 0
    ensures forall x :: x in ds <==> x in enabled && m in Deps(c, x)
    ensures forall x | x in enabled ::
              Waiting(Deps(c, x), placed + {m}) == Waiting(Deps(c, x), placed) - multiset(ds)[x]
    ensures forall x | x in ds :: x !in Ready(c, enabled, placed)
  {
    hide Deps, Waiting;
    forall x
      ensures x in ds <==> x in enabled && m in Deps(c, x)
      ensures x in enabled ==> Waiting(Deps(c, x), placed + {m}) == Waiting(Deps(c, x), placed) - multiset(ds)[x]
      ensures m in Deps(c, x) ==> x !in Ready(c, enabled, placed)
    {
      WaitingAfterPlacing(Deps(c, x), placed, m);
      ReadyAfterPlacing(c, enabled, placed, m, x);
      assert x in ds <==> x in multiset(ds);
      assert m in Deps(c, x) <==> m in multiset(Deps(c, x));
    }
  }

  method Release(c: Catalog, enabled: set<string>, ghost placed: set<string>, m: string, ds: seq<string>,
                 indegree0: map<string, int>, ready0: seq<string>)
    returns (indegree: map<string, int>, ready: seq<string>)
    requires m in Ready(c, enabled, placed)
    requires indegree0.Keys == enabled && forall x | x in enabled :: indegree0[x] == Waiting(Deps(c, x), placed)
    requires Distinct(ready0) && Elems(ready0) == Ready(c, enabled, placed) - {m}
    requires forall x :: multiset(ds)[x] == if x in enabled then multiset(Deps(c, x))[m] else 0
    requires forall x, d | x in placed && d in Deps(c, x) :: d in placed
    ensures indegree.Keys == enabled && forall x | x in enabled :: indegree[x] == Waiting(Deps(c, x), placed + {m})
    ensures Distinct(ready) && Elems(ready) == Ready(c, enabled, placed + {m})
  {
    hide Deps, Waiting, Ready, Distinct;
    DependentsWait(c, enabled, placed, m, ds);
    forall x ensures x in ready0 <==> x in Ready(c, enabled, placed) - {m} {
      assert x in ready0 <==> x in Elems(ready0);
    }
    indegree, ready := CountDown(indegree0, ready0, ds);
    forall x ensures x in Elems(ready) <==> x in Ready(c, enabled, placed + {m}) {
      ReadyAfterPlacing(c, enabled, placed, m, x);
    }
  }

  lemma {:induction false} DistinctCounts(s: seq<string>)
    ensures Distinct(s) <==> forall x :: multiset(s)[x] <= 1
  {
    if s != [] {
      var rest, last := s[..|s| - 1], s[|s| - 1];
      DistinctCounts(rest);
      assert s == rest + [last];
      if Distinct(s) {
        assert last !in multiset(rest);
      } else if Distinct(rest) {
        assert last in multiset(rest);
        assert multiset(s)[last] > 1;
      } else {
        var x :| multiset(rest)[x] > 1;
        assert multiset(s)[x] > 1;
      }
    }
  }

  lemma SortKeepsElements(s: seq<string>)
    ensures Elems(Sort(s)) == Elems(s)
    ensures Distinct(s) ==> Distinct(Sort(s))
  {
    forall x ensures x in Sort(s) <==> x in s {
      assert x in Sort(s) <==> x in multiset(Sort(s));
    }
    DistinctCounts(s);
    DistinctCounts(Sort(s));
  }

  /** Ready before anything is placed: the modules without a dependency to wait for. */
  lemma ReadyAtFirst(c: Catalog, enabled: set<string>, m: string)
    ensures m in Ready(c, enabled, {}) <==> m in enabled && |Deps(c, m)| == 0
  {
    if |Deps(c, m)| != 0 { assert Deps(c, m)[0] in Deps(c, m); }
  }

  method InitiallyReady(c: Catalog, enabled: set<string>, indegree: map<string, int>) returns (ready: seq<string>)
    requires indegree.Keys == enabled && forall m | m in enabled :: indegree[m] == |Deps(c, m)|
    ensures Distinct(ready) && Elems(ready) == Ready(c, enabled, {})
  {
    ready := [];
    var todo := indegree.Keys;
    hide Deps, Ready;
    while todo != {}
      invariant todo <= enabled && Distinct(ready)
      invariant forall x :: x in ready <==> x in enabled - todo && indegree[x] == 0
      decreases |todo|
    {
      var m :| m in todo;
      if indegree[m] == 0 {
        ready := ready + [m];
      }
      todo := todo - {m};
    }
    forall m { ReadyAtFirst(c, enabled, m); }
  }

  lemma GreedyExtends(c: Catalog, enabled: set<string>, order: seq<string>, m: string)
    requires Greedy(c, enabled, order) && m in Ready(c, enabled, Elems(order))
    requires forall x | x in Ready(c, enabled, Elems(order)) :: !Less(x, m)
    ensures Greedy(c, enabled, order + [m])
  {
    hide Less, Deps, Ready, Elems;
    forall k | 0 <= k < |order + [m]| ensures (order + [m])[..k] == order[..k] {}
    assert order[..|order|] == order;
  }

  lemma DependenciesFirstExtends(c: Catalog, order: seq<string>, m: string)
    requires DependenciesFirst(c, order) && forall d | d in Deps(c, m) :: d in order
    ensures DependenciesFirst(c, order + [m])
  {
    hide Deps;
    forall k | 0 <= k < |order + [m]| ensures (order + [m])[..k] == order[..k] {}
    assert order[..|order|] == order;
  }

  /** Taking the head off the sorted ready list places a smallest ready module. */
  lemma PlaceNext(c: Catalog, enabled: set<string>, indegree: map<string, int>, ready: seq<string>, order: seq<string>)
    requires LoopState(c, enabled, indegree, ready, order) && ready != []
    ensures var m := ready[0];
      && m in Ready(c, enabled, Elems(order))
      && Distinct(ready[1..]) && Elems(ready[1..]) == Ready(c, enabled, Elems(order)) - {m}
      && Elems(order + [m]) == Elems(order) + {m} <= enabled && Distinct(order + [m])
      && Greedy(c, enabled, order + [m]) && DependenciesFirst(c, order + [m])
  {
    hide Less, Deps, Greedy, DependenciesFirst, Sorted, Waiting;
    var m := ready[0];
    assert m in Elems(ready);
    assert ready == [m] + ready[1..];
    forall x | x in Ready(c, enabled, Elems(order)) ensures !Less(x, m) {
      assert x in Elems(ready);
      SortedHeadIsLeast(ready, x);
    }
    GreedyExtends(c, enabled, order, m);
    DependenciesFirstExtends(c, order, m);
  }

  lemma InitialState(c: Catalog, enabled: set<string>, indegree: map<string, int>, ready: seq<string>)
    requires indegree.Keys == enabled && forall m | m in enabled :: indegree[m] == |Deps(c, m)|
    requires Distinct(ready) && Sorted(ready) && Elems(ready) == Ready(c, enabled, {})
    ensures LoopState(c, enabled, indegree, ready, [])
  {
    hide Deps, Less;
    forall m ensures Waiting(Deps(c, m), {}) == |Deps(c, m)| { WaitingNothingPlaced(Deps(c, m)); }
    assert Elems([]) == {};
  }

  /** One turn of the main loop: place the head of the ready list and release its dependents. */
  method PlaceHead(c: Catalog, enabled: set<string>, dependents: map<string, seq<string>>,
                   indegree0: map<string, int>, ready0: seq<string>, order0: seq<string>)
    returns (indegree: map<string, int>, ready: seq<string>, order: seq<string>)
    requires LoopState(c, enabled, indegree0, ready0, order0) && ready0 != []
    requires forall x, m :: Edges(dependents, x, m) == if m in enabled then multiset(Deps(c, m))[x] else 0
    ensures LoopState(c, enabled, indegree, ready, order)
    ensures order == order0 + [ready0[0]] && |order| <= |enabled|
  {
    hide Less, Deps, Greedy, Sorted, Waiting, Ready;
    PlaceNext(c, enabled, indegree0, ready0, order0);
    ghost var placed := Elems(order0);
    var m := ready0[0];
    order := order0 + [m];
    DistinctLength(order);
    SubsetCardinality(Elems(order), enabled);
    assert forall x :: Edges(dependents, m, x) == multiset(DependentsOf(dependents, m))[x];
    indegree, ready := Release(c, enabled, placed, m, DependentsOf(dependents, m), indegree0, ready0[1..]);
    SortKeepsElements(ready);
    SortSorts(ready);
    ready := Sort(ready);
  }

  /** orderedEnabledModules: the least topological order, or `None` when there is none. */
  method OrderedEnabledModules(c: Catalog, enabled: set<string>) returns (r: Option<seq<string>>)
    ensures r.Some? ==> IsTopological(c, enabled, r.value)
    ensures r.Some? ==> forall t | IsTopological(c, enabled, t) :: t == r.value || ListLess(r.value, t)
    ensures r.None? ==> forall t :: !IsTopological(c, enabled, t)
    ensures Closed(c, enabled) ==> (r.None? <==> HasCycle(c, enabled))
  {
    hide LoopState, HasCycle, IsTopological, Closed, ListLess, Ready, Sorted, Deps, Edges;
    var indegree, dependents := BuildTables(c, enabled);
    var ready := InitiallyReady(c, enabled, indegree);
    SortKeepsElements(ready);
    SortSorts(ready);
    ready := Sort(ready);
    var order := [];
    InitialState(c, enabled, indegree, ready);
    while ready != []
      invariant LoopState(c, enabled, indegree, ready, order)
      decreases |enabled| - |order|
    {
      indegree, ready, order := PlaceHead(c, enabled, dependents, indegree, ready, order);
    }
    if |order| != |enabled| {
      r := None;
      StuckResult(c, enabled, indegree, order);
    } else {
      r := Some(order);
      CompleteResult(c, enabled, indegree, order);
    }
  }

  lemma StuckResult(c: Catalog, enabled: set<string>, indegree: map<string, int>, order: seq<string>)
    requires LoopState(c, enabled, indegree, [], order) && |order| != |enabled|
    ensures forall t :: !IsTopological(c, enabled, t)
    ensures Closed(c, enabled) ==> HasCycle(c, enabled)
  {
    hide Less, Deps, Greedy, DependenciesFirst, Waiting, Closed, HasCycle, IsTopological;
    DistinctLength(order);
    ProperSubset(Elems(order), enabled);
    assert Ready(c, enabled, Elems(order)) == Elems([]) == {};
    forall t ensures !IsTopological(c, enabled, t) {
      if IsTopological(c, enabled, t) { OrderHasReady(c, enabled, Elems(order), t); }
    }
    if Closed(c, enabled) { StuckMeansCycle(c, enabled, Elems(order)); }
  }

  lemma CompleteResult(c: Catalog, enabled: set<string>, indegree: map<string, int>, order: seq<string>)
    requires LoopState(c, enabled, indegree, [], order) && |order| == |enabled|
    ensures IsTopological(c, enabled, order) && !HasCycle(c, enabled)
    ensures forall t | IsTopological(c, enabled, t) :: t == order || ListLess(order, t)
  {
    hide Less, Deps, Greedy, DependenciesFirst, Waiting, ListLess, IsCycle;
    DistinctLength(order);
    FullSubset(Elems(order), enabled);
    forall t | IsTopological(c, enabled, t) ensures t == order || ListLess(order, t) {
      GreedyIsLeast(c, enabled, order, t);
    }
    forall p ensures !IsCycle(c, enabled, p) {
      if IsCycle(c, enabled, p) { CycleMeansNoOrder(c, enabled, p, order); }
    }
  }

  lemma ProperSubset(a: set<string>, b: set<string>)
    requires a <= b && |a| != |b|
    ensures a < b && b - a != {}
  {
    assert a != b;
    var x :| x in b && x !in a;
    assert x in b - a;
  }

  lemma FullSubset(a: set<string>, b: set<string>)
    requires a <= b && |a| == |b|
    ensures a == b
  {
    SubsetCardinality(b - a, b);
    assert |b| == |a| + |b - a| by { assert b == a + (b - a); }
  }

  /** There is only one least order, so the result does not depend on map iteration. */
  lemma LeastOrderUnique(c: Catalog, enabled: set<string>, a: seq<string>, b: seq<string>)
    requires IsTopological(c, enabled, a) && forall t | IsTopological(c, enabled, t) :: t == a || ListLess(a, t)
    requires IsTopological(c, enabled, b) && forall t | IsTopological(c, enabled, t) :: t == b || ListLess(b, t)
    ensures a == b
  {
    if a != b { ListLessAsymmetric(a, b); }
  }
}
