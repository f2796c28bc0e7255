/** The walk over parents and dependencies as it is run: it fills one map of results, and loads the parents it misses. */
module ValueFiles {
  import opened Options
  import opened Globals
  import opened ChartStores
  import opened ChartQueries
  import opened ChartPaths
  import opened ChartResolution
  import opened ParentLoading

  // ----- what can be loaded -----

  /** Loading a chart writes its tree over what is stored. */
  lemma {:induction false} LoadedOver(disk: Disk, store: Store, c: Chart)
    ensures Loaded(disk, store, c) == store + Loaded(disk, map[], c)
    decreases c.helm, 1
  {
    var n := |c.helm.dependencies|;
    DependenciesOver(disk, store[c.root := c], c, n);
    DependenciesOver(disk, map[c.root := c], c, n);
    assert store[c.root := c] + LoadedDependencies(disk, map[], c, n) ==
           store + (map[c.root := c] + LoadedDependencies(disk, map[], c, n));
  }

  lemma {:induction false} DependenciesOver(disk: Disk, store: Store, c: Chart, n: nat)
    requires n <= |c.helm.dependencies|
    ensures LoadedDependencies(disk, store, c, n) == store + LoadedDependencies(disk, map[], c, n)
    decreases c.helm, 0, n
  {
    if n > 0 {
      var d := DependencyChart(disk, c, c.helm.dependencies[n-1]);
      DependenciesOver(disk, store, c, n - 1);
      LoadedOver(disk, LoadedDependencies(disk, store, c, n - 1), d);
      LoadedOver(disk, LoadedDependencies(disk, map[], c, n - 1), d);
    }
  }

  /** The directories of all charts that loading any chart of the disk stores. */
  function OnDisk(disk: Disk): set<Uri> {
    set u, v | u in disk.charts && v in Loaded(disk, map[], NewChart(disk, u)) :: v
  }

  function InReach(disk: Disk, store: Store): set<Uri> {
    OnDisk(disk) + store.Keys
  }

  lemma FetchedInReach(disk: Disk, store: Store, u: Uri)
    ensures store.Keys <= Fetched(disk, store, u).Keys && InReach(disk, Fetched(disk, store, u)) == InReach(disk, store)
  {
    if u !in store && u in disk.charts {
      LoadedOver(disk, store, NewChart(disk, u));
    }
  }

  // ----- the walk -----

  /** The store and the results so far. */
  datatype Progress = Progress(store: Store, found: Selectors)

  ghost predicate InBounds(disk: Disk, p: Progress) {
    ParentsOnDisk(disk, p.store) && p.found.Keys <= InReach(disk, p.store)
  }

  ghost predicate Further(disk: Disk, p: Progress, r: Progress) {
    && InBounds(disk, r) && InReach(disk, r.store) == InReach(disk, p.store)
    && p.store.Keys <= r.store.Keys && p.found.Keys <= r.found.Keys
  }

  ghost function WalkFrom(disk: Disk, p: Progress, c: Chart, query: Query): (r: Progress)
    requires InBounds(disk, p) && ParentOnDisk(disk, c) && c.root in InReach(disk, p.store)
    ensures Further(disk, p, r)
    decreases InReach(disk, p.store) - p.found.Keys, 0
  {
    if c.root in p.found then p
    else
      var marked := p.(found := p.found[c.root := query]);
      if query == [] then marked
      else
        assert c.root in InReach(disk, p.store) - p.found.Keys && marked.found.Keys == p.found.Keys + {c.root};
        FromParent(disk, FromDependencies(disk, marked, c, query, |c.helm.dependencies|), c, query)
  }

  ghost function FromDependencies(disk: Disk, p: Progress, c: Chart, query: Query, n: nat): (r: Progress)
    requires InBounds(disk, p) && query != [] && n <= |c.helm.dependencies|
    ensures Further(disk, p, r)
    decreases InReach(disk, p.store) - p.found.Keys, 1, n
  {
    if n == 0 then p
    else
      var before := FromDependencies(disk, p, c, query, n - 1);
      var name := c.helm.dependencies[n-1].name;
      var dependency := DependencyUri(disk, c.root, name);
      if Asks(query, name) && dependency in before.store
      then WalkFrom(disk, before, before.store[dependency], Asked(query, name)) else before
  }

  ghost function FromParent(disk: Disk, p: Progress, c: Chart, query: Query): (r: Progress)
    requires InBounds(disk, p) && query != [] && ParentOnDisk(disk, c)
    ensures Further(disk, p, r)
    decreases InReach(disk, p.store) - p.found.Keys, 1, 0
  {
    if c.parent.None? then p
    else
      var u := c.parent.value;
      FetchedFinds(disk, p.store, u);
      FetchedInReach(disk, p.store, u);
      var fetched := p.(store := Fetched(disk, p.store, u));
      var parent := Found(disk, p.store, u);
      var first := if query[0] == GLOBAL then WalkFrom(disk, fetched, parent, query) else fetched;
      WalkFrom(disk, first, parent, [c.metadataName] + query)
  }

  class Resolver {
    const charts: ChartStore
    var found: Selectors

    constructor (charts: ChartStore)
      ensures this.charts == charts && found == map[]
    {
      this.charts := charts;
      found := map[];
    }

    ghost function Now(): Progress
      reads this, charts
    {
      Progress(charts.charts, found)
    }

    method ResolveRecursive(c: Chart, query: Query)
      requires InBounds(charts.disk, Now()) && ParentOnDisk(charts.disk, c) && c.root in InReach(charts.disk, charts.charts)
      modifies this`found, charts
      ensures Now() == WalkFrom(charts.disk, old(Now()), c, query)
      decreases InReach(charts.disk, charts.charts) - found.Keys, 0
    {
      if c.root in found {
        return;
      }
      found := found[c.root := query];
      if |query| == 0 {
        return;
      }
      assert c.root in InReach(charts.disk, charts.charts) - old(found).Keys && found.Keys == old(found).Keys + {c.root};
      ResolveDependencies(c, query);
      ResolveParent(c, query);
    }

    method ResolveDependencies(c: Chart, query: Query)
      requires InBounds(charts.disk, Now()) && query != []
      modifies this`found, charts
      ensures Now() == FromDependencies(charts.disk, old(Now()), c, query, |c.helm.dependencies|)
      decreases InReach(charts.disk, charts.charts) - found.Keys, 2
    {
      ghost var now := Now();
      for i := 0 to |c.helm.dependencies|
        invariant Now() == now && now == FromDependencies(charts.disk, old(Now()), c, query, i)
      {
        now := ResolveDependency(c, query, i, old(Now()));
      }
    }

    method ResolveDependency(c: Chart, query: Query, i: nat, ghost before: Progress) returns (ghost now: Progress)
      requires InBounds(charts.disk, before) && query != [] && i < |c.helm.dependencies|
      requires Now() == FromDependencies(charts.disk, before, c, query, i)
      modifies this`found, charts
      ensures Now() == now && now == FromDependencies(charts.disk, before, c, query, i + 1)
      decreases InReach(charts.disk, charts.charts) - found.Keys, 1
    {
      var name := c.helm.dependencies[i].name;
      if name == query[0] || query[0] == GLOBAL {
        var subQuery := query;
        if name == query[0] {
          if |query| >= 1 {
            subQuery := query[1..];
          }
        }
        var dependency := DependencyUri(charts.disk, c.root, name);
        if dependency in charts.charts {
          ResolveRecursive(charts.charts[dependency], subQuery);
        }
      }
      now := Now();
    }

    method ResolveParent(c: Chart, query: Query)
      requires InBounds(charts.disk, Now()) && query != [] && ParentOnDisk(charts.disk, c)
      modifies this`found, charts
      ensures Now() == FromParent(charts.disk, old(Now()), c, query)
      decreases InReach(charts.disk, charts.charts) - found.Keys, 1
    {
      if c.parent.Some? {
        FetchedFinds(charts.disk, charts.charts, c.parent.value);
        FetchedInReach(charts.disk, charts.charts, c.parent.value);
      }
      var parent := charts.GetParentChart(c);
      if parent.None? {
        return;
      }
      if query[0] == GLOBAL {
        ResolveRecursive(parent.value, query);
      }
      ResolveRecursive(parent.value, [c.metadataName] + query);
    }
  }

  method ResolveValueFiles(charts: ChartStore, c: Chart, query: Query) returns (found: Selectors)
    requires ParentsOnDisk(charts.disk, charts.charts) && ParentOnDisk(charts.disk, c)
    requires c.root in charts.charts
    modifies charts
    ensures Progress(charts.charts, found) == WalkFrom(charts.disk, Progress(old(charts.charts), map[]), c, query)
  {
    var resolver := new Resolver(charts);
    resolver.ResolveRecursive(c, query);
    found := resolver.found;
  }

  // ----- loading makes no difference -----

  predicate Within(s: Store, t: Store) {
    forall u | u in s :: u in t && t[u] == s[u]
  }

  /** Everything that can be loaded from the disk is there. */
  ghost predicate Whole(disk: Disk, all: Store) {
    ParentsOnDisk(disk, all) && forall u | u in disk.charts :: Within(Loaded(disk, map[], NewChart(disk, u)), all)
  }

  /** With every chart, all its dependencies are stored; but for some charts, of which this is not known. */
  predicate DependenciesStored(disk: Disk, s: Store, but: set<Uri>) {
    forall u, i: nat | u in s && u !in but && i < |s[u].helm.dependencies| ::
      DependencyUri(disk, s[u].root, s[u].helm.dependencies[i].name) in s
  }

  /** Adding a chart stores its dependencies. */
  lemma {:induction false} LoadedDependenciesStored(disk: Disk, store: Store, c: Chart, but: set<Uri>)
    requires DependenciesStored(disk, store, but)
    ensures DependenciesStored(disk, Loaded(disk, store, c), but)
    decreases c.helm, 1
  {
    var n := |c.helm.dependencies|;
    OwnDependenciesStored(disk, store[c.root := c], c, n, but + {c.root});
    LoadedRoot(disk, store, c);
  }

  lemma {:induction false} OwnDependenciesStored(disk: Disk, store: Store, c: Chart, n: nat, but: set<Uri>)
    requires DependenciesStored(disk, store, but) && n <= |c.helm.dependencies|
    ensures var r := LoadedDependencies(disk, store, c, n);
            && DependenciesStored(disk, r, but)
            && forall i: nat | i < n :: DependencyUri(disk, c.root, c.helm.dependencies[i].name) in r
    decreases c.helm, 0, n
  {
    if n > 0 {
      var before, d := LoadedDependencies(disk, store, c, n - 1), DependencyChart(disk, c, c.helm.dependencies[n-1]);
      OwnDependenciesStored(disk, store, c, n - 1, but);
      LoadedDependenciesStored(disk, before, d, but);
      LoadedGrows(disk, before, d);
      LoadedRoot(disk, before, d);
    }
  }

  /** A store that a walk may have reached: it tells the same as the whole, and holds dependencies with their charts. */
  ghost predicate Partial(disk: Disk, all: Store, store: Store) {
    Within(store, all) && DependenciesStored(disk, store, {})
  }

  lemma FetchedPartial(disk: Disk, all: Store, store: Store, u: Uri)
    requires Whole(disk, all) && Partial(disk, all, store)
    ensures Partial(disk, all, Fetched(disk, store, u))
  {
    if u !in store && u in disk.charts {
      LoadedOver(disk, store, NewChart(disk, u));
      LoadedDependenciesStored(disk, store, NewChart(disk, u), {});
    }
  }

  lemma ReachIsWithin(disk: Disk, all: Store, store: Store)
    requires Whole(disk, all) && Within(store, all)
    ensures InReach(disk, store) <= all.Keys
  {
    forall v | v in OnDisk(disk) ensures v in all {
      var u :| u in disk.charts && v in Loaded(disk, map[], NewChart(disk, u));
    }
  }

  lemma ParentInWhole(disk: Disk, all: Store, u: Uri)
    requires Whole(disk, all) && u in all && all[u].parent.Some?
    ensures var p := all[u].parent.value;
            p in disk.charts && p in all && ParentIn(all, all[u]) == Some(p) && all[p] == NewChart(disk, p)
  {
    var p := all[u].parent.value;
    assert ParentOnDisk(disk, all[u]);
    LoadedRoot(disk, map[], NewChart(disk, p));
  }

  lemma {:induction false} WalkFromIsWalk(disk: Disk, all: Store, p: Progress, u: Uri, query: Query)
    requires Whole(disk, all) && Partial(disk, all, p.store) && InBounds(disk, p) && u in p.store && p.found.Keys <= all.Keys
    ensures var r := WalkFrom(disk, p, all[u], query);
            r.found == Walk(disk, all, u, query, p.found) && Partial(disk, all, r.store)
    decreases InReach(disk, p.store) - p.found.Keys, 0
  {
    if u !in p.found && query != [] {
      var marked := p.(found := p.found[u := query]);
      assert u in InReach(disk, p.store) - p.found.Keys && marked.found.Keys == p.found.Keys + {u};
      var n := |all[u].helm.dependencies|;
      DependenciesAreWalked(disk, all, marked, u, query, n);
      ParentIsWalked(disk, all, FromDependencies(disk, marked, all[u], query, n), u, query);
    }
  }

  lemma DependencyIsStored(disk: Disk, all: Store, store: Store, u: Uri, i: nat)
    requires Partial(disk, all, store) && u in store && i < |all[u].helm.dependencies|
    ensures var dependency := DependencyUri(disk, all[u].root, all[u].helm.dependencies[i].name);
            dependency in store && dependency in all && store[dependency] == all[dependency]
  {
    assert store[u] == all[u];
  }

  lemma {:induction false} DependenciesAreWalked(disk: Disk, all: Store, p: Progress, u: Uri, query: Query, n: nat)
    requires Whole(disk, all) && Partial(disk, all, p.store) && InBounds(disk, p) && u in p.store && p.found.Keys <= all.Keys
    requires query != [] && n <= |all[u].helm.dependencies|
    ensures var r := FromDependencies(disk, p, all[u], query, n);
            && r.found == WalkDependencies(disk, all, u, query, n, p.found)
            && Partial(disk, all, r.store) && r.found.Keys <= all.Keys
    decreases InReach(disk, p.store) - p.found.Keys, 1, n
  {
    if n > 0 {
      DependenciesAreWalked(disk, all, p, u, query, n - 1);
      DependencyIsWalked(disk, all, p, u, query, n);
    }
  }

  lemma DependencyIsWalked(disk: Disk, all: Store, p: Progress, u: Uri, query: Query, n: nat)
    requires Whole(disk, all) && InBounds(disk, p) && u in p.store && u in all && query != []
    requires 0 < n <= |all[u].helm.dependencies|
    requires var before := FromDependencies(disk, p, all[u], query, n - 1);
             && p.found.Keys <= all.Keys && before.found == WalkDependencies(disk, all, u, query, n - 1, p.found)
             && Partial(disk, all, before.store) && before.found.Keys <= all.Keys
    ensures var r := FromDependencies(disk, p, all[u], query, n);
            && r.found == WalkDependencies(disk, all, u, query, n, p.found)
            && Partial(disk, all, r.store) && r.found.Keys <= all.Keys
    decreases InReach(disk, p.store) - p.found.Keys, 1, 0
  {
    var before := FromDependencies(disk, p, all[u], query, n - 1);
    var name := all[u].helm.dependencies[n-1].name;
    var dependency := DependencyUri(disk, all[u].root, name);
    DependencyIsStored(disk, all, before.store, u, n - 1);
    if Asks(query, name) {
      WalkFromIsWalk(disk, all, before, dependency, Asked(query, name));
    }
  }

  lemma {:induction false} ParentIsWalked(disk: Disk, all: Store, p: Progress, u: Uri, query: Query)
    requires Whole(disk, all) && Partial(disk, all, p.store) && InBounds(disk, p) && u in p.store && p.found.Keys <= all.Keys
    requires query != []
    ensures var r := FromParent(disk, p, all[u], query);
            r.found == WalkParent(disk, all, u, query, p.found) && Partial(disk, all, r.store)
    decreases InReach(disk, p.store) - p.found.Keys, 1, 0
  {
    if all[u].parent.Some? {
      var v := all[u].parent.value;
      ParentInWhole(disk, all, u);
      FetchedFinds(disk, p.store, v);
      FetchedInReach(disk, p.store, v);
      FetchedPartial(disk, all, p.store, v);
      ReachIsWithin(disk, all, p.store);
      var fetched := p.(store := Fetched(disk, p.store, v));
      assert Found(disk, p.store, v) == all[v];
      if query[0] == GLOBAL {
        WalkFromIsWalk(disk, all, fetched, v, query);
        WalkFromIsWalk(disk, all, WalkFrom(disk, fetched, all[v], query), v, [all[u].metadataName] + query);
      } else {
        WalkFromIsWalk(disk, all, fetched, v, [all[u].metadataName] + query);
      }
    }
  }

  /** Whatever part of the whole is stored when a query is asked, it finds what it would find with everything stored. */
  lemma LoadingMakesNoDifference(disk: Disk, all: Store, store: Store, u: Uri, query: Query)
    requires Whole(disk, all) && Partial(disk, all, store) && u in store
    ensures ParentsOnDisk(disk, store) && u in all
    ensures WalkFrom(disk, Progress(store, map[]), store[u], query).found == Walk(disk, all, u, query, map[])
  {
    WalkFromIsWalk(disk, all, Progress(store, map[]), u, query);
  }

  /** And so, if parents and dependencies agree there and no chart is named `global`, it finds exactly the wanted charts with
      their selectors. */
  lemma QueryFindsExactly(disk: Disk, all: Store, store: Store, u: Uri, query: Query)
    requires Whole(disk, all) && Consistent(disk, all) && NoGlobalChart(all) && Partial(disk, all, store) && u in store && query != []
    ensures Shrinking(all) && ParentsOnDisk(disk, store) && u in all
    ensures var found := WalkFrom(disk, Progress(store, map[]), store[u], query).found;
            && (forall v | v in found :: InTree(disk, all, u, v))
            && forall names, v :: FoundAsWanted(disk, all, u, query, found, names, v)
  {
    ConsistentShrinks(disk, all);
    LoadingMakesNoDifference(disk, all, store, u, query);
    ResolvesExactly(disk, all, u, query, Walk(disk, all, u, query, map[]));
  }

  /** There is such a whole exactly when a directory is loaded as the same chart by itself and with any chart above it. */
  ghost predicate Coherent(disk: Disk) {
    forall u, v, x | u in disk.charts && v in disk.charts && x in Loaded(disk, map[], NewChart(disk, u)) &&
                     x in Loaded(disk, map[], NewChart(disk, v)) ::
      Loaded(disk, map[], NewChart(disk, u))[x] == Loaded(disk, map[], NewChart(disk, v))[x]
  }

  lemma WholeExactly(disk: Disk)
    ensures Coherent(disk) <==> exists all :: Whole(disk, all)
  {
    if Coherent(disk) {
      var all := Gathered(disk, disk.charts.Keys);
      assert Whole(disk, all);
    }
    forall all, u, v, x | Whole(disk, all) && u in disk.charts && v in disk.charts && x in Loaded(disk, map[], NewChart(disk, u)) &&
                          x in Loaded(disk, map[], NewChart(disk, v))
      ensures Loaded(disk, map[], NewChart(disk, u))[x] == Loaded(disk, map[], NewChart(disk, v))[x]
    {
      assert Within(Loaded(disk, map[], NewChart(disk, u)), all) && Within(Loaded(disk, map[], NewChart(disk, v)), all);
    }
  }

  /** The trees of some charts of the disk together. */
  lemma {:induction false} Gathered(disk: Disk, us: set<Uri>) returns (all: Store)
    requires Coherent(disk) && us <= disk.charts.Keys
    ensures ParentsOnDisk(disk, all)
    ensures forall u | u in us :: Within(Loaded(disk, map[], NewChart(disk, u)), all)
    ensures forall x | x in all :: exists u :: u in us && x in Loaded(disk, map[], NewChart(disk, u))
    decreases us
  {
    all := map[];
    if us != {} {
      var u :| u in us;
      var rest := Gathered(disk, us - {u});
      var c := NewChart(disk, u);
      all := Loaded(disk, rest, c);
      LoadedOver(disk, rest, c);
      LoadedOnDisk(disk, rest, c);
    }
  }
}
