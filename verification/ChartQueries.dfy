/** Which charts a values path concerns: the walk over parents and dependencies, and what it finds. */
module ChartQueries {
  import opened Globals
  import opened ChartStores

  type Query = seq<string>

  type Selectors = map<Uri, Query>

  // ----- the walk -----

  predicate Asks(query: Query, name: string) {
    query != [] && (name == query[0] || query[0] == GLOBAL)
  }

  /** What a dependency is asked: the rest of the query under its own name, and all of a global one. */
  function Asked(query: Query, name: string): Query {
    if query != [] && name == query[0] then query[1..] else query
  }

  function Walk(disk: Disk, store: Store, u: Uri, query: Query, found: Selectors): (r: Selectors)
    requires u in store && found.Keys <= store.Keys
    ensures found.Keys <= r.Keys <= store.Keys && u in r
    ensures forall v | v in found :: r[v] == found[v]
    decreases store.Keys - found.Keys, 0
  {
    if u in found then found
    else
      var marked := found[u := query];
      if query == [] then marked
      else
        assert u in store.Keys - found.Keys && marked.Keys == found.Keys + {u};
        var below := WalkDependencies(disk, store, u, query, |store[u].helm.dependencies|, marked);
        WalkParent(disk, store, u, query, below)
  }

  function WalkDependencies(disk: Disk, store: Store, u: Uri, query: Query, n: nat, found: Selectors): (r: Selectors)
    requires u in store && query != [] && n <= |store[u].helm.dependencies| && found.Keys <= store.Keys
    ensures found.Keys <= r.Keys <= store.Keys
    ensures forall v | v in found :: r[v] == found[v]
    decreases store.Keys - found.Keys, 1, n
  {
    if n == 0 then found
    else
      var before := WalkDependencies(disk, store, u, query, n - 1, found);
      var name := store[u].helm.dependencies[n-1].name;
      var dependency := DependencyUri(disk, store[u].root, name);
      if Asks(query, name) && dependency in store then Walk(disk, store, dependency, Asked(query, name), before) else before
  }

  function WalkParent(disk: Disk, store: Store, u: Uri, query: Query, found: Selectors): (r: Selectors)
    requires u in store && query != [] && found.Keys <= store.Keys
    ensures found.Keys <= r.Keys <= store.Keys
    ensures forall v | v in found :: r[v] == found[v]
    decreases store.Keys - found.Keys, 1, 0
  {
    var parent := ParentIn(store, store[u]);
    if parent.None? then found
    else
      var first := if query[0] == GLOBAL then Walk(disk, store, parent.value, query, found) else found;
      Walk(disk, store, parent.value, [store[u].metadataName] + query, first)
  }

  // ----- every chart found has been looked around from -----

  predicate LookedAround(disk: Disk, store: Store, u: Uri, found: Selectors)
    requires u in store && u in found
  {
    found[u] != [] ==>
      && DependenciesFound(disk, store, u, found[u], |store[u].helm.dependencies|, found)
      && ParentFound(store, u, found)
  }

  predicate DependenciesFound(disk: Disk, store: Store, u: Uri, query: Query, n: nat, found: Selectors)
    requires u in store && n <= |store[u].helm.dependencies|
  {
    forall i | 0 <= i < n ::
      var name := store[u].helm.dependencies[i].name;
      var dependency := DependencyUri(disk, store[u].root, name);
      Asks(query, name) && dependency in store ==> dependency in found
  }

  predicate ParentFound(store: Store, u: Uri, found: Selectors)
    requires u in store
  {
    ParentIn(store, store[u]).Some? ==> ParentIn(store, store[u]).value in found
  }

  ghost predicate AllLookedAround(disk: Disk, store: Store, found: Selectors, since: Selectors) {
    forall u | u in found && u !in since :: u in store && LookedAround(disk, store, u, found)
  }

  lemma {:induction false} WalkLooksAround(disk: Disk, store: Store, u: Uri, query: Query, found: Selectors)
    requires u in store && found.Keys <= store.Keys
    ensures AllLookedAround(disk, store, Walk(disk, store, u, query, found), found)
    decreases store.Keys - found.Keys, 0
  {
    if u !in found && query != [] {
      var marked := found[u := query];
      assert u in store.Keys - found.Keys && marked.Keys == found.Keys + {u};
      var below := WalkDependencies(disk, store, u, query, |store[u].helm.dependencies|, marked);
      DependenciesLookAround(disk, store, u, query, |store[u].helm.dependencies|, marked);
      ParentLooksAround(disk, store, u, query, below);
    }
  }

  lemma {:induction false} DependenciesLookAround(disk: Disk, store: Store, u: Uri, query: Query, n: nat, found: Selectors)
    requires u in store && query != [] && n <= |store[u].helm.dependencies| && found.Keys <= store.Keys
    ensures var r := WalkDependencies(disk, store, u, query, n, found);
            AllLookedAround(disk, store, r, found) && DependenciesFound(disk, store, u, query, n, r)
    decreases store.Keys - found.Keys, 1, n
  {
    if n > 0 {
      var before := WalkDependencies(disk, store, u, query, n - 1, found);
      DependenciesLookAround(disk, store, u, query, n - 1, found);
      var name := store[u].helm.dependencies[n-1].name;
      var dependency := DependencyUri(disk, store[u].root, name);
      if Asks(query, name) && dependency in store {
        WalkLooksAround(disk, store, dependency, Asked(query, name), before);
      }
    }
  }

  lemma {:induction false} ParentLooksAround(disk: Disk, store: Store, u: Uri, query: Query, found: Selectors)
    requires u in store && query != [] && found.Keys <= store.Keys
    ensures var r := WalkParent(disk, store, u, query, found);
            AllLookedAround(disk, store, r, found) && ParentFound(store, u, r)
    decreases store.Keys - found.Keys, 1, 0
  {
    var parent := ParentIn(store, store[u]);
    if parent.Some? {
      var first := if query[0] == GLOBAL then Walk(disk, store, parent.value, query, found) else found;
      if query[0] == GLOBAL {
        WalkLooksAround(disk, store, parent.value, query, found);
      }
      WalkLooksAround(disk, store, parent.value, [store[u].metadataName] + query, first);
    }
  }
}
