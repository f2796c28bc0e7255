/** The walk finds exactly the charts on the path that a query spells out. */
module ChartPaths {
  import opened Options
  import opened Globals
  import opened ChartStores
  import opened ChartQueries

  // ----- paths of names -----

  /** The stored dependency of a chart with a name. */
  function DependencyNamed(disk: Disk, store: Store, u: Uri, name: string): Option<Uri>
    requires u in store
  {
    var ds := store[u].helm.dependencies;
    var dependency := DependencyUri(disk, store[u].root, name);
    if IndexOf(ds, name) < |ds| && dependency in store then Some(dependency) else None
  }

  /** The chart that a path of dependency names leads to. */
  function Follow(disk: Disk, store: Store, u: Uri, names: seq<string>): (r: Option<Uri>)
    requires u in store
    ensures r.Some? ==> r.value in store
  {
    if names == [] then Some(u)
    else
      var above := Follow(disk, store, u, names[..|names|-1]);
      if above.None? then None else DependencyNamed(disk, store, above.value, names[|names|-1])
  }

  ghost predicate Shrinking(store: Store) {
    forall u | u in store && ParentIn(store, store[u]).Some? :: |ParentIn(store, store[u]).value| < |u|
  }

  lemma ConsistentShrinks(disk: Disk, store: Store)
    requires Consistent(disk, store)
    ensures Shrinking(store)
  {
    forall u | u in store && ParentIn(store, store[u]).Some? ensures |ParentIn(store, store[u]).value| < |u| {
      assert ParentAgrees(disk, store, store[u]);
    }
  }

  /** The topmost ancestor. */
  function Top(store: Store, u: Uri): (t: Uri)
    requires u in store && Shrinking(store)
    ensures t in store
    decreases |u|
  {
    var parent := ParentIn(store, store[u]);
    if parent.None? then u else Top(store, parent.value)
  }

  /** The names from the topmost ancestor down. */
  function PathFromTop(store: Store, u: Uri): seq<string>
    requires u in store && Shrinking(store)
    decreases |u|
  {
    var parent := ParentIn(store, store[u]);
    if parent.None? then [] else PathFromTop(store, parent.value) + [store[u].metadataName]
  }

  lemma {:induction false} TopLeadsBack(disk: Disk, store: Store, u: Uri)
    requires u in store && Consistent(disk, store) && Shrinking(store)
    ensures Follow(disk, store, Top(store, u), PathFromTop(store, u)) == Some(u)
    decreases |u|
  {
    var parent := ParentIn(store, store[u]);
    if parent.Some? {
      TopLeadsBack(disk, store, parent.value);
      ParentNames(disk, store, u);
      var path := PathFromTop(store, u);
      assert path[..|path|-1] == PathFromTop(store, parent.value);
    }
  }

  /** A chart's parent knows it as a dependency under the chart's name. */
  lemma ParentNames(disk: Disk, store: Store, u: Uri)
    requires u in store && Consistent(disk, store) && ParentIn(store, store[u]).Some?
    ensures DependencyNamed(disk, store, ParentIn(store, store[u]).value, store[u].metadataName) == Some(u)
  {
    var p := ParentIn(store, store[u]).value;
    assert ParentAgrees(disk, store, store[u]) && DependenciesAgree(disk, store, store[p]);
    var i :| 0 <= i < |store[p].helm.dependencies| && DependencyUri(disk, store[p].root, store[p].helm.dependencies[i].name) == u;
  }

  /** One path, at most, leads from a chart to another. */
  lemma {:induction false} PathsUnique(disk: Disk, store: Store, u: Uri, names: seq<string>, others: seq<string>)
    requires u in store && Consistent(disk, store)
    requires Follow(disk, store, u, names).Some? && Follow(disk, store, u, names) == Follow(disk, store, u, others)
    ensures names == others
    decreases |names|
  {
    FollowGrows(disk, store, u, names);
    FollowGrows(disk, store, u, others);
    if names != [] && others != [] {
      var init, otherInit := names[..|names|-1], others[..|others|-1];
      var above, other := Follow(disk, store, u, init).value, Follow(disk, store, u, otherInit).value;
      DependencyUriInjective(disk, store[above].root, names[|names|-1], store[other].root, others[|others|-1]);
      PathsUnique(disk, store, u, init, otherInit);
      assert names == init + [names[|names|-1]] && others == otherInit + [others[|others|-1]];
    }
  }

  lemma {:induction false} FollowGrows(disk: Disk, store: Store, u: Uri, names: seq<string>)
    requires u in store && Consistent(disk, store) && Follow(disk, store, u, names).Some?
    ensures |Follow(disk, store, u, names).value| >= |u| + |names|
    decreases |names|
  {
    if names != [] {
      FollowGrows(disk, store, u, names[..|names|-1]);
    }
  }

  // ----- what the walk keeps -----

  /** A property of charts and selectors that every step of the walk passes on. Steps to a parent matter only on the chain of
      charts above the start: everywhere else the parent has been found before. */
  ghost predicate PassedOn(disk: Disk, store: Store, chain: set<Uri>, good: (Uri, Query) -> bool) {
    && (forall u, query, i | u in store && good(u, query) && 0 <= i < |store[u].helm.dependencies| ::
          PassedDown(disk, store, u, query, store[u].helm.dependencies[i].name, good))
    && (forall u, query | u in store && u in chain && good(u, query) :: PassedUp(store, chain, u, query, good))
  }

  ghost predicate PassedDown(disk: Disk, store: Store, u: Uri, query: Query, name: string, good: (Uri, Query) -> bool)
    requires u in store
  {
    var dependency := DependencyUri(disk, store[u].root, name);
    Asks(query, name) && dependency in store ==> good(dependency, Asked(query, name))
  }

  ghost predicate PassedUp(store: Store, chain: set<Uri>, u: Uri, query: Query, good: (Uri, Query) -> bool)
    requires u in store
  {
    var parent := ParentIn(store, store[u]);
    query != [] && parent.Some? ==>
      parent.value in chain && good(parent.value, if query[0] == GLOBAL then query else [store[u].metadataName] + query)
  }

  ghost predicate AllGood(found: Selectors, good: (Uri, Query) -> bool) {
    forall u | u in found :: good(u, found[u])
  }

  predicate Entered(store: Store, chain: set<Uri>, u: Uri, found: Selectors)
    requires u in store
  {
    u in found || u in chain || ParentFound(store, u, found)
  }

  lemma {:induction false} WalkKeepsGood(disk: Disk, store: Store, chain: set<Uri>, good: (Uri, Query) -> bool,
                                         u: Uri, query: Query, found: Selectors)
    requires u in store && found.Keys <= store.Keys && Consistent(disk, store) && PassedOn(disk, store, chain, good)
    requires good(u, query) && AllGood(found, good) && Entered(store, chain, u, found)
    ensures AllGood(Walk(disk, store, u, query, found), good)
    decreases store.Keys - found.Keys, 0
  {
    if u !in found && query != [] {
      var marked := found[u := query];
      assert u in store.Keys - found.Keys && marked.Keys == found.Keys + {u};
      var n := |store[u].helm.dependencies|;
      DependenciesKeepGood(disk, store, chain, good, u, query, n, marked);
      var below := WalkDependencies(disk, store, u, query, n, marked);
      ParentKeepsGood(disk, store, chain, good, u, query, below);
    }
  }

  lemma DependencyEntered(disk: Disk, store: Store, chain: set<Uri>, u: Uri, i: nat, found: Selectors)
    requires u in store && Consistent(disk, store) && u in found && i < |store[u].helm.dependencies|
    ensures var dependency := DependencyUri(disk, store[u].root, store[u].helm.dependencies[i].name);
            dependency in store ==> Entered(store, chain, dependency, found)
  {
    assert DependenciesAgree(disk, store, store[u]);
  }

  lemma {:induction false} DependenciesKeepGood(disk: Disk, store: Store, chain: set<Uri>, good: (Uri, Query) -> bool,
                                                u: Uri, query: Query, n: nat, found: Selectors)
    requires u in store && query != [] && n <= |store[u].helm.dependencies| && found.Keys <= store.Keys
    requires Consistent(disk, store) && PassedOn(disk, store, chain, good)
    requires good(u, query) && AllGood(found, good) && u in found
    ensures AllGood(WalkDependencies(disk, store, u, query, n, found), good)
    decreases store.Keys - found.Keys, 1, n
  {
    if n > 0 {
      DependenciesKeepGood(disk, store, chain, good, u, query, n - 1, found);
      var before := WalkDependencies(disk, store, u, query, n - 1, found);
      var name := store[u].helm.dependencies[n-1].name;
      var dependency := DependencyUri(disk, store[u].root, name);
      if Asks(query, name) && dependency in store {
        assert PassedDown(disk, store, u, query, name, good);
        DependencyEntered(disk, store, chain, u, n - 1, before);
        WalkKeepsGood(disk, store, chain, good, dependency, Asked(query, name), before);
      }
    }
  }

  lemma {:induction false} ParentKeepsGood(disk: Disk, store: Store, chain: set<Uri>, good: (Uri, Query) -> bool,
                                           u: Uri, query: Query, found: Selectors)
    requires u in store && query != [] && found.Keys <= store.Keys
    requires Consistent(disk, store) && PassedOn(disk, store, chain, good)
    requires good(u, query) && AllGood(found, good) && (u in chain || ParentFound(store, u, found))
    ensures AllGood(WalkParent(disk, store, u, query, found), good)
    decreases store.Keys - found.Keys, 1, 0
  {
    var parent := ParentIn(store, store[u]);
    if parent.Some? && parent.value !in found {
      assert PassedUp(store, chain, u, query, good);
      if query[0] == GLOBAL {
        WalkKeepsGood(disk, store, chain, good, parent.value, query, found);
      } else {
        WalkKeepsGood(disk, store, chain, good, parent.value, [store[u].metadataName] + query, found);
      }
    }
  }
}
