/** The main result about chart queries: the walk finds exactly the wanted charts, each with its one selector. */
module ChartResolution {
  import opened Options
  import opened Globals
  import opened ChartStores
  import opened ChartQueries
  import opened ChartPaths

  ghost predicate NoGlobalChart(store: Store) {
    forall u, i | u in store && 0 <= i < |store[u].helm.dependencies| :: store[u].helm.dependencies[i].name != GLOBAL
  }

  function FirstGlobal(names: seq<string>): (g: nat)
    ensures g <= |names|
    ensures g < |names| ==> names[g] == GLOBAL
    ensures forall k | 0 <= k < g :: names[k] != GLOBAL
  {
    if names == [] || names[0] == GLOBAL then 0 else 1 + FirstGlobal(names[1..])
  }

  /** Which charts a query concerns, by their path `names` from the topmost ancestor: `up` is the path of the chart asked.
      A query for global values concerns every chart. Any other concerns the charts on the way that it spells out; where it
      arrives at `global` it concerns every chart below as well. */
  predicate Wanted(up: seq<string>, query: Query, names: seq<string>) {
    var g := FirstGlobal(up + query);
    || (query != [] && query[0] == GLOBAL)
    || names <= (up + query)[..g]
    || (g < |up + query| && (up + query)[..g] <= names)
  }

  /** What is asked of the chart at a path: the part of the query's path that is left below it. */
  function SelectorAt(up: seq<string>, query: Query, names: seq<string>): Query {
    var g := FirstGlobal(up + query);
    if query != [] && query[0] == GLOBAL then query
    else (up + query)[(if |names| < g then |names| else g)..]
  }

  // ----- steps -----

  lemma StepDown(up: seq<string>, query: Query, names: seq<string>, name: string)
    requires Wanted(up, query, names) && name != GLOBAL && Asks(SelectorAt(up, query, names), name)
    ensures Wanted(up, query, names + [name])
    ensures SelectorAt(up, query, names + [name]) == Asked(SelectorAt(up, query, names), name)
  {
    var target := up + query;
    var g := FirstGlobal(target);
    if query != [] && query[0] == GLOBAL {
    } else if |names| < g {
      StepOnPath(target, g, names, name);
    } else {
      StepBelow(target, g, names, name);
    }
  }

  /** Before a `global`, the next chart is the one the path spells out. */
  lemma StepOnPath(target: seq<string>, g: nat, names: seq<string>, name: string)
    requires |names| < g <= |target| && (names <= target[..g] || target[..g] <= names)
    requires Asks(target[|names|..], name) && target[|names|] != GLOBAL
    ensures names + [name] <= target[..g] && Asked(target[|names|..], name) == target[|names|+1..]
  {
    assert target[|names|..][0] == target[|names|];
    assert names == target[..|names|];
    assert names + [name] == target[..|names|+1];
  }

  /** From a `global` on, every chart is asked for it. */
  lemma StepBelow(target: seq<string>, g: nat, names: seq<string>, name: string)
    requires g <= |names| && g <= |target| && (g < |target| ==> target[g] == GLOBAL)
    requires names <= target[..g] || target[..g] <= names
    requires Asks(target[g..], name) && name != GLOBAL
    ensures g < |target| && target[..g] <= names + [name] && Asked(target[g..], name) == target[g..]
  {
    assert g < |target| ==> target[g..][0] == GLOBAL;
    assert target[..g] <= names;
  }

  /** The way down to a wanted chart below the start leads through wanted charts that ask for it. */
  lemma StepBack(up: seq<string>, query: Query, names: seq<string>)
    requires query != [] && Wanted(up, query, names) && !(names <= up) && GLOBAL !in up
    ensures Wanted(up, query, names[..|names|-1])
    ensures Asks(SelectorAt(up, query, names[..|names|-1]), names[|names|-1])
  {
    var target := up + query;
    var g := FirstGlobal(target);
    var init := names[..|names|-1];
    GlobalIsBelow(up, query);
    if query[0] != GLOBAL && |names| <= g {
      assert names == target[..|names|];
      assert init == target[..|init|];
    } else if query[0] != GLOBAL {
      assert target[..g] <= names && target[..g] == names[..g];
      assert init[..g] == target[..g];
    }
  }

  lemma GlobalIsBelow(up: seq<string>, query: Query)
    requires query != [] && GLOBAL !in up
    ensures FirstGlobal(up + query) >= |up|
    ensures query[0] != GLOBAL ==> FirstGlobal(up + query) > |up|
  {
    assert forall k | 0 <= k < |up| :: (up + query)[k] == up[k];
    assert (up + query)[|up|] == query[0];
  }

  lemma AncestorsWanted(up: seq<string>, query: Query, names: seq<string>)
    requires query != [] && GLOBAL !in up && names <= up
    ensures Wanted(up, query, names)
    ensures SelectorAt(up, query, names) == if query[0] == GLOBAL then query else (up + query)[|names|..]
  {
    GlobalIsBelow(up, query);
    assert names <= (up + query)[..FirstGlobal(up + query)];
  }

  lemma StepUp(up: seq<string>, query: Query, names: seq<string>)
    requires query != [] && GLOBAL !in up && names <= up && names != []
    ensures var selector := SelectorAt(up, query, names);
            && selector != []
            && (selector[0] == GLOBAL <==> query[0] == GLOBAL)
            && SelectorAt(up, query, names[..|names|-1]) == if query[0] == GLOBAL then selector else [names[|names|-1]] + selector
  {
    AncestorsWanted(up, query, names);
    AncestorsWanted(up, query, names[..|names|-1]);
    GlobalIsBelow(up, query);
    var target := up + query;
    if query[0] != GLOBAL {
      assert target[|names|] != GLOBAL;
      assert target[|names|-1] == names[|names|-1];
      assert target[|names|-1..] == [names[|names|-1]] + target[|names|..];
    }
  }

  // ----- the chain above the start -----

  function Chain(store: Store, u: Uri): set<Uri>
    requires u in store && Shrinking(store)
    decreases |u|
  {
    var parent := ParentIn(store, store[u]);
    if parent.None? then {u} else {u} + Chain(store, parent.value)
  }

  lemma {:induction false} ChainPaths(store: Store, u: Uri, v: Uri)
    requires u in store && Shrinking(store) && v in Chain(store, u)
    ensures v in store && Top(store, v) == Top(store, u) && PathFromTop(store, v) <= PathFromTop(store, u)
    ensures ParentIn(store, store[v]).Some? ==> ParentIn(store, store[v]).value in Chain(store, u)
    decreases |u|
  {
    if v != u {
      ChainPaths(store, ParentIn(store, store[u]).value, v);
    } else if ParentIn(store, store[u]).Some? {
      var p := ParentIn(store, store[u]).value;
      assert p in Chain(store, p);
    }
  }

  lemma {:induction false} PrefixesAreChain(disk: Disk, store: Store, u: Uri, names: seq<string>)
    requires u in store && Consistent(disk, store) && Shrinking(store) && names <= PathFromTop(store, u)
    ensures Follow(disk, store, Top(store, u), names).Some? && Follow(disk, store, Top(store, u), names).value in Chain(store, u)
    decreases |u|
  {
    if names == PathFromTop(store, u) {
      TopLeadsBack(disk, store, u);
    } else {
      PrefixesAreChain(disk, store, ParentIn(store, store[u]).value, names);
    }
  }

  lemma {:induction false} PathHasNoGlobal(disk: Disk, store: Store, u: Uri)
    requires u in store && Consistent(disk, store) && Shrinking(store) && NoGlobalChart(store)
    ensures GLOBAL !in PathFromTop(store, u)
    decreases |u|
  {
    var parent := ParentIn(store, store[u]);
    if parent.Some? {
      PathHasNoGlobal(disk, store, parent.value);
      ParentNames(disk, store, u);
      var ds := store[parent.value].helm.dependencies;
      assert ds[IndexOf(ds, store[u].metadataName)].name != GLOBAL;
    }
  }

  // ----- soundness -----

  ghost predicate Sound(disk: Disk, store: Store, start: Uri, query: Query, u: Uri, selector: Query)
    requires start in store && Shrinking(store)
  {
    var up := PathFromTop(store, start);
    exists names :: Follow(disk, store, Top(store, start), names) == Some(u) && Wanted(up, query, names) &&
                    selector == SelectorAt(up, query, names)
  }

  lemma SoundDown(disk: Disk, store: Store, start: Uri, query: Query, u: Uri, selector: Query, i: nat)
    requires start in store && Shrinking(store) && NoGlobalChart(store) && u in store
    requires Sound(disk, store, start, query, u, selector) && i < |store[u].helm.dependencies|
    ensures var name := store[u].helm.dependencies[i].name;
            var dependency := DependencyUri(disk, store[u].root, name);
            Asks(selector, name) && dependency in store ==> Sound(disk, store, start, query, dependency, Asked(selector, name))
  {
    var up, top := PathFromTop(store, start), Top(store, start);
    var name := store[u].helm.dependencies[i].name;
    var names :| Follow(disk, store, top, names) == Some(u) && Wanted(up, query, names) && selector == SelectorAt(up, query, names);
    FollowDown(disk, store, top, u, names, i);
    if Asks(selector, name) {
      StepDown(up, query, names, name);
    }
  }

  lemma FollowDown(disk: Disk, store: Store, top: Uri, u: Uri, names: seq<string>, i: nat)
    requires top in store && u in store && Follow(disk, store, top, names) == Some(u) && i < |store[u].helm.dependencies|
    ensures var name := store[u].helm.dependencies[i].name;
            var dependency := DependencyUri(disk, store[u].root, name);
            Follow(disk, store, top, names + [name]) == if dependency in store then Some(dependency) else None
  {
    var name := store[u].helm.dependencies[i].name;
    assert (names + [name])[..|names|] == names;
    assert IndexOf(store[u].helm.dependencies, name) <= i;
  }

  lemma SoundOnPath(disk: Disk, store: Store, start: Uri, query: Query, u: Uri, selector: Query)
    requires start in store && Shrinking(store) && u in store && Consistent(disk, store)
    requires Sound(disk, store, start, query, u, selector) && u in Chain(store, start)
    ensures selector == SelectorAt(PathFromTop(store, start), query, PathFromTop(store, u))
  {
    var up, top := PathFromTop(store, start), Top(store, start);
    ChainPaths(store, start, u);
    TopLeadsBack(disk, store, u);
    var others :| Follow(disk, store, top, others) == Some(u) && selector == SelectorAt(up, query, others);
    PathsUnique(disk, store, top, PathFromTop(store, u), others);
  }

  lemma SoundUp(disk: Disk, store: Store, start: Uri, query: Query, u: Uri, selector: Query)
    requires start in store && Shrinking(store) && NoGlobalChart(store) && u in store && Consistent(disk, store) && query != []
    requires Sound(disk, store, start, query, u, selector) && u in Chain(store, start)
    ensures PassedUp(store, Chain(store, start), u, selector, (v, q) => Sound(disk, store, start, query, v, q))
  {
    var up, top, parent := PathFromTop(store, start), Top(store, start), ParentIn(store, store[u]);
    ChainPaths(store, start, u);
    if parent.Some? {
      var names := PathFromTop(store, u);
      TopLeadsBack(disk, store, parent.value);
      SoundOnPath(disk, store, start, query, u, selector);
      PathHasNoGlobal(disk, store, start);
      StepUp(up, query, names);
      AncestorsWanted(up, query, names[..|names|-1]);
      assert names[..|names|-1] == PathFromTop(store, parent.value);
    }
  }

  lemma WalkIsSound(disk: Disk, store: Store, start: Uri, query: Query)
    requires start in store && Shrinking(store) && NoGlobalChart(store) && Consistent(disk, store) && query != []
    ensures forall u | u in Walk(disk, store, start, query, map[]) ::
      Sound(disk, store, start, query, u, Walk(disk, store, start, query, map[])[u])
  {
    var good := (v, q) => Sound(disk, store, start, query, v, q);
    var chain := Chain(store, start);
    forall u, q, i | u in store && good(u, q) && 0 <= i < |store[u].helm.dependencies|
      ensures PassedDown(disk, store, u, q, store[u].helm.dependencies[i].name, good)
    {
      SoundDown(disk, store, start, query, u, q, i);
    }
    forall u, q | u in store && u in chain && good(u, q) ensures PassedUp(store, chain, u, q, good) {
      SoundUp(disk, store, start, query, u, q);
    }
    StartIsSound(disk, store, start, query);
    WalkKeepsGood(disk, store, chain, good, start, query, map[]);
  }

  lemma StartIsSound(disk: Disk, store: Store, start: Uri, query: Query)
    requires start in store && Shrinking(store) && NoGlobalChart(store) && Consistent(disk, store) && query != []
    ensures Sound(disk, store, start, query, start, query)
  {
    var up := PathFromTop(store, start);
    TopLeadsBack(disk, store, start);
    PathHasNoGlobal(disk, store, start);
    AncestorsWanted(up, query, up);
    assert (up + query)[|up|..] == query;
  }

  // ----- completeness -----

  lemma WalkIsClosed(disk: Disk, store: Store, start: Uri, query: Query)
    requires start in store
    ensures start in Walk(disk, store, start, query, map[])
    ensures forall u | u in Walk(disk, store, start, query, map[]) ::
      u in store && LookedAround(disk, store, u, Walk(disk, store, start, query, map[]))
  {
    WalkLooksAround(disk, store, start, query, map[]);
  }

  /** A sound set of charts that has been looked around from. */
  ghost predicate Settled(disk: Disk, store: Store, start: Uri, query: Query, found: Selectors)
    requires start in store && Shrinking(store)
  {
    && start in found
    && forall u | u in found :: u in store && LookedAround(disk, store, u, found) && Sound(disk, store, start, query, u, found[u])
  }

  /** What a found chart is asked, by any path that leads to it. */
  lemma SelectorOf(disk: Disk, store: Store, start: Uri, query: Query, found: Selectors, names: seq<string>, u: Uri)
    requires start in store && Shrinking(store) && Consistent(disk, store) && Settled(disk, store, start, query, found)
    requires Follow(disk, store, Top(store, start), names) == Some(u) && u in found
    ensures Wanted(PathFromTop(store, start), query, names) && found[u] == SelectorAt(PathFromTop(store, start), query, names)
  {
    var up := PathFromTop(store, start);
    var others :| Follow(disk, store, Top(store, start), others) == Some(u) && Wanted(up, query, others) &&
                  found[u] == SelectorAt(up, query, others);
    PathsUnique(disk, store, Top(store, start), names, others);
  }

  lemma {:induction false} ChainFound(disk: Disk, store: Store, start: Uri, query: Query, found: Selectors, x: Uri, v: Uri)
    requires start in store && Shrinking(store) && NoGlobalChart(store) && Consistent(disk, store) && query != []
    requires Settled(disk, store, start, query, found)
    requires x in found && x in store && x in Chain(store, start) && v in Chain(store, x)
    ensures v in found
    decreases |x|
  {
    if v != x {
      var up, names := PathFromTop(store, start), PathFromTop(store, x);
      ChainPaths(store, start, x);
      TopLeadsBack(disk, store, x);
      SelectorOf(disk, store, start, query, found, names, x);
      PathHasNoGlobal(disk, store, start);
      StepUp(up, query, names);
      ChainFound(disk, store, start, query, found, ParentIn(store, store[x]).value, v);
    }
  }

  lemma {:induction false} WantedFound(disk: Disk, store: Store, start: Uri, query: Query, found: Selectors, names: seq<string>)
    requires start in store && Shrinking(store) && NoGlobalChart(store) && Consistent(disk, store) && query != []
    requires Settled(disk, store, start, query, found)
    requires Follow(disk, store, Top(store, start), names).Some? && Wanted(PathFromTop(store, start), query, names)
    ensures Follow(disk, store, Top(store, start), names).value in found
    decreases |names|
  {
    var up, top := PathFromTop(store, start), Top(store, start);
    PathHasNoGlobal(disk, store, start);
    if names <= up {
      PrefixesAreChain(disk, store, start, names);
      assert start in Chain(store, start);
      ChainFound(disk, store, start, query, found, start, Follow(disk, store, top, names).value);
    } else {
      var init, name := names[..|names|-1], names[|names|-1];
      StepBack(up, query, names);
      WantedFound(disk, store, start, query, found, init);
      var above := Follow(disk, store, top, init).value;
      SelectorOf(disk, store, start, query, found, init, above);
      var ds := store[above].helm.dependencies;
      assert ds[IndexOf(ds, name)].name == name;
      assert LookedAround(disk, store, above, found);
    }
  }

  // ----- the main result -----

  ghost predicate InTree(disk: Disk, store: Store, start: Uri, u: Uri)
    requires start in store && Shrinking(store)
  {
    exists names :: Follow(disk, store, Top(store, start), names) == Some(u)
  }

  ghost predicate FoundAsWanted(disk: Disk, store: Store, start: Uri, query: Query, found: Selectors, names: seq<string>, u: Uri)
    requires start in store && Shrinking(store)
  {
    var up := PathFromTop(store, start);
    Follow(disk, store, Top(store, start), names) == Some(u) ==>
      && (u in found <==> Wanted(up, query, names))
      && (u in found ==> found[u] == SelectorAt(up, query, names))
  }

  lemma SettledAsWanted(disk: Disk, store: Store, start: Uri, query: Query, found: Selectors, names: seq<string>, u: Uri)
    requires start in store && Shrinking(store) && NoGlobalChart(store) && Consistent(disk, store) && query != []
    requires Settled(disk, store, start, query, found)
    ensures FoundAsWanted(disk, store, start, query, found, names, u)
  {
    if Follow(disk, store, Top(store, start), names) == Some(u) {
      if u in found {
        SelectorOf(disk, store, start, query, found, names, u);
      }
      if Wanted(PathFromTop(store, start), query, names) {
        WantedFound(disk, store, start, query, found, names);
      }
    }
  }

  lemma WalkSettles(disk: Disk, store: Store, start: Uri, query: Query)
    requires start in store && Consistent(disk, store) && Shrinking(store) && NoGlobalChart(store) && query != []
    ensures Settled(disk, store, start, query, Walk(disk, store, start, query, map[]))
  {
    WalkIsSound(disk, store, start, query);
    WalkIsClosed(disk, store, start, query);
  }

  lemma SettledInTree(disk: Disk, store: Store, start: Uri, query: Query, found: Selectors, u: Uri)
    requires start in store && Shrinking(store) && Settled(disk, store, start, query, found) && u in found
    ensures InTree(disk, store, start, u)
  {
    assert Sound(disk, store, start, query, u, found[u]);
  }

  /** In a consistent store without a chart named `global`, a query that is not empty finds exactly the wanted charts, and
      each is asked what is left of the query's path below it, up to the first `global`. The result does not depend on the
      order of the walk. An empty query finds the start alone. */
  lemma ResolvesExactly(disk: Disk, store: Store, start: Uri, query: Query, found: Selectors)
    requires start in store && Consistent(disk, store) && Shrinking(store) && NoGlobalChart(store)
    requires found == Walk(disk, store, start, query, map[])
    ensures query == [] ==> found == map[start := []]
    ensures query != [] ==> forall u | u in found :: InTree(disk, store, start, u)
    ensures query != [] ==> forall names, u :: FoundAsWanted(disk, store, start, query, found, names, u)
  {
    if query != [] {
      WalkSettles(disk, store, start, query);
      forall u | u in found ensures InTree(disk, store, start, u) {
        SettledInTree(disk, store, start, query, found, u);
      }
      forall names, u ensures FoundAsWanted(disk, store, start, query, found, names, u) {
        SettledAsWanted(disk, store, start, query, found, names, u);
      }
    }
  }

  /** Without `global` in the path, path and selector together are always the path asked for. */
  lemma SelectorCompletesPath(up: seq<string>, query: Query, names: seq<string>)
    requires GLOBAL !in up + query && query != []
    ensures Wanted(up, query, names) <==> names <= up + query
    ensures Wanted(up, query, names) ==> names + SelectorAt(up, query, names) == up + query
  {
    assert (up + query)[|up|] == query[0];
    assert (up + query)[..|up + query|] == up + query;
  }
}
