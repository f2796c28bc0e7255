/** When loading a chart keeps parents and dependencies in agreement. */
module StoreConsistency {
  import opened Options
  import opened ChartStores

  /** A directory of a chart's tree. */
  ghost predicate Loads(disk: Disk, c: Chart, u: Uri) {
    exists names :: Descend(disk, c, names).Some? && UriAt(disk, c.root, names) == u
  }

  /** Whatever is not in the tree stays as it was. */
  lemma {:induction false} LoadedElse(disk: Disk, store: Store, c: Chart, u: Uri)
    requires WellNamed(c.helm) && !Loads(disk, c, u)
    ensures Agree(Loaded(disk, store, c), store, u)
    decreases c.helm, 1
  {
    assert Descend(disk, c, []).Some? && UriAt(disk, c.root, []) == c.root;
    DependenciesElse(disk, store[c.root := c], c, |c.helm.dependencies|, u);
  }

  lemma {:induction false} DependenciesElse(disk: Disk, store: Store, c: Chart, n: nat, u: Uri)
    requires WellNamed(c.helm) && n <= |c.helm.dependencies| && !Loads(disk, c, u)
    ensures Agree(LoadedDependencies(disk, store, c, n), store, u)
    decreases c.helm, 0, n
  {
    if n > 0 {
      var d := DependencyChart(disk, c, c.helm.dependencies[n-1]);
      DependenciesElse(disk, store, c, n - 1, u);
      forall names | Descend(disk, d, names).Some? ensures UriAt(disk, d.root, names) != u {
        DescendCons(disk, c, n - 1, names);
        UriAtCons(disk, c.root, d.metadataName, names);
      }
      LoadedElse(disk, LoadedDependencies(disk, store, c, n - 1), d, u);
    }
  }

  // ----- the charts of the tree -----

  /** The dependencies of a chart of the tree are in the tree. */
  lemma TreeDependency(disk: Disk, c: Chart, names: seq<string>, i: nat)
    requires WellNamed(c.helm) && Descend(disk, c, names).Some? && i < |Descend(disk, c, names).value.helm.dependencies|
    ensures var d := Descend(disk, c, names).value;
            var below := names + [d.helm.dependencies[i].name];
            && Descend(disk, c, below) == Some(DependencyChart(disk, d, d.helm.dependencies[i]))
            && UriAt(disk, c.root, below) == DependencyUri(disk, d.root, d.helm.dependencies[i].name)
            && d.helm.dependencies[i].name != ""
  {
    var d := Descend(disk, c, names).value;
    DescendWellNamed(disk, c, names);
    DescendRoot(disk, c, names);
    var below := names + [d.helm.dependencies[i].name];
    assert below[..|names|] == names && IndexOf(d.helm.dependencies, d.helm.dependencies[i].name) == i;
  }

  lemma TreeDependenciesAgree(disk: Disk, store: Store, c: Chart, names: seq<string>)
    requires WellNamed(c.helm) && Descend(disk, c, names).Some?
    ensures DependenciesAgree(disk, Loaded(disk, store, c), Descend(disk, c, names).value)
  {
    var d := Descend(disk, c, names).value;
    DescendWellNamed(disk, c, names);
    forall i | 0 <= i < |d.helm.dependencies|
      ensures var name := d.helm.dependencies[i].name;
              var u, r := DependencyUri(disk, d.root, name), Loaded(disk, store, c);
              u in r && r[u] == DependencyChart(disk, d, d.helm.dependencies[i]) && name != "" && ParentOf(disk, u) in {None, Some(d.root)}
    {
      TreeDependency(disk, c, names, i);
      LoadedHas(disk, store, c, names + [d.helm.dependencies[i].name]);
      DependencyParent(disk, d.root, d.helm.dependencies[i].name);
    }
  }

  lemma TreeParentAgrees(disk: Disk, store: Store, c: Chart, names: seq<string>)
    requires WellNamed(c.helm) && names != [] && Descend(disk, c, names).Some?
    ensures ParentAgrees(disk, Loaded(disk, store, c), Descend(disk, c, names).value)
  {
    var init := names[..|names|-1];
    DescendRoot(disk, c, init);
    LoadedHas(disk, store, c, init);
    DependencyParent(disk, Descend(disk, c, init).value.root, names[|names|-1]);
  }

  lemma NothingAbove(disk: Disk, c: Chart, u: Uri)
    requires Loads(disk, c, u)
    ensures |u| >= |c.root|
  {
    var names :| Descend(disk, c, names).Some? && UriAt(disk, c.root, names) == u;
  }

  // ----- when a chart fits -----

  /** Whichever stored chart depends on this one calls it by its name. */
  predicate DependentAgrees(disk: Disk, q: Chart, c: Chart) {
    forall i | 0 <= i < |q.helm.dependencies| && DependencyUri(disk, q.root, q.helm.dependencies[i].name) == c.root ::
      q.helm.dependencies[i].name == c.metadataName == Name(c)
  }

  /** A stored chart whose parent is loaded again is loaded again itself. */
  ghost predicate TakenAlong(disk: Disk, q: Chart, c: Chart) {
    q.parent.Some? && Loads(disk, c, q.parent.value) ==> Loads(disk, c, q.root)
  }

  ghost predicate Fits(disk: Disk, store: Store, c: Chart) {
    && ParentAgrees(disk, store, c)
    && forall u | u in store :: DependentAgrees(disk, store[u], c) && TakenAlong(disk, store[u], c)
  }

  lemma RootParentAgrees(disk: Disk, store: Store, c: Chart)
    requires WellNamed(c.helm) && ParentOnDisk(disk, c)
    ensures ParentAgrees(disk, Loaded(disk, store, c), c) <==> ParentAgrees(disk, store, c)
  {
    if c.parent.Some? {
      if Loads(disk, c, c.parent.value) {
        NothingAbove(disk, c, c.parent.value);
      }
      LoadedElse(disk, store, c, c.parent.value);
    }
  }

  lemma OtherParentAgrees(disk: Disk, store: Store, c: Chart, u: Uri)
    requires WellNamed(c.helm) && Consistent(disk, store) && u in store && !Loads(disk, c, u)
    ensures ParentAgrees(disk, Loaded(disk, store, c), store[u]) <==> TakenAlong(disk, store[u], c)
  {
    var q, after := store[u], Loaded(disk, store, c);
    assert ParentAgrees(disk, store, q);
    if q.parent.Some? {
      if Loads(disk, c, q.parent.value) {
        LeftBehind(disk, store, c, q.parent.value, u);
      } else {
        LoadedElse(disk, store, c, q.parent.value);
      }
    }
  }

  /** No chart of the tree depends on one outside it. */
  lemma LeftBehind(disk: Disk, store: Store, c: Chart, p: Uri, u: Uri)
    requires WellNamed(c.helm) && Loads(disk, c, p) && !Loads(disk, c, u)
    ensures p in Loaded(disk, store, c) && !Depends(disk, Loaded(disk, store, c)[p], u)
  {
    var names :| Descend(disk, c, names).Some? && UriAt(disk, c.root, names) == p;
    var d := Descend(disk, c, names).value;
    LoadedHas(disk, store, c, names);
    forall i: nat | i < |d.helm.dependencies| ensures DependencyUri(disk, d.root, d.helm.dependencies[i].name) != u {
      TreeDependency(disk, c, names, i);
    }
  }

  lemma OtherDependency(disk: Disk, store: Store, c: Chart, u: Uri, i: nat)
    requires WellNamed(c.helm) && Consistent(disk, store) && ParentsOnDisk(disk, store) && u in store && !Loads(disk, c, u)
    requires i < |store[u].helm.dependencies|
    ensures var v := DependencyUri(disk, u, store[u].helm.dependencies[i].name);
            v == c.root || Agree(Loaded(disk, store, c), store, v)
  {
    var name := store[u].helm.dependencies[i].name;
    var v := DependencyUri(disk, u, name);
    if v != c.root {
      if Loads(disk, c, v) {
        TreeAbove(disk, c, u, name);
      }
      LoadedElse(disk, store, c, v);
    }
  }

  /** A dependency in the tree, other than the tree's root, has the chart it depends from in the tree. */
  lemma TreeAbove(disk: Disk, c: Chart, u: Uri, name: string)
    requires Loads(disk, c, DependencyUri(disk, u, name)) && DependencyUri(disk, u, name) != c.root
    ensures Loads(disk, c, u)
  {
    var names :| Descend(disk, c, names).Some? && UriAt(disk, c.root, names) == DependencyUri(disk, u, name);
    var init := names[..|names|-1];
    DependencyUriInjective(disk, u, name, UriAt(disk, c.root, init), names[|names|-1]);
    assert Descend(disk, c, init).Some?;
  }

  lemma OtherDependenciesAgree(disk: Disk, store: Store, c: Chart, u: Uri)
    requires WellNamed(c.helm) && Consistent(disk, store) && ParentsOnDisk(disk, store) && ParentOnDisk(disk, c)
    requires u in store && !Loads(disk, c, u)
    ensures DependenciesAgree(disk, Loaded(disk, store, c), store[u]) <==> DependentAgrees(disk, store[u], c)
  {
    var q, after := store[u], Loaded(disk, store, c);
    assert DependenciesAgree(disk, store, q);
    LoadedRoot(disk, store, c);
    forall i: nat | i < |q.helm.dependencies|
      ensures var name := q.helm.dependencies[i].name;
              var v := DependencyUri(disk, u, name);
              && (v == c.root || Agree(after, store, v))
              && ParentOf(disk, v) in {None, Some(u)}
    {
      OtherDependency(disk, store, c, u, i);
      DependencyParent(disk, u, q.helm.dependencies[i].name);
    }
  }

  // ----- the result -----

  lemma TreeDependentAgrees(disk: Disk, store: Store, c: Chart, u: Uri)
    requires Consistent(disk, store) && u in store && Loads(disk, c, u)
    ensures DependentAgrees(disk, store[u], c) && TakenAlong(disk, store[u], c)
  {
    NothingAbove(disk, c, u);
  }

  /** Adding a chart to a consistent store leaves it consistent exactly when the chart fits: the parent it finds knows it, those
      that depend on it call it by its name, and no chart is left behind below a chart that is loaded again. */
  lemma LoadingKeepsConsistent(disk: Disk, store: Store, c: Chart)
    requires Consistent(disk, store) && ParentsOnDisk(disk, store) && WellNamed(c.helm) && ParentOnDisk(disk, c)
    ensures Consistent(disk, Loaded(disk, store, c)) <==> Fits(disk, store, c)
  {
    var after := Loaded(disk, store, c);
    RootParentAgrees(disk, store, c);
    LoadedRoot(disk, store, c);
    forall u | u in store
      ensures if Loads(disk, c, u) then DependentAgrees(disk, store[u], c) && TakenAlong(disk, store[u], c)
              else u in after && after[u] == store[u]
                   && (DependenciesAgree(disk, after, store[u]) <==> DependentAgrees(disk, store[u], c))
                   && (ParentAgrees(disk, after, store[u]) <==> TakenAlong(disk, store[u], c))
    {
      if Loads(disk, c, u) {
        TreeDependentAgrees(disk, store, c, u);
      } else {
        LoadedElse(disk, store, c, u);
        OtherDependenciesAgree(disk, store, c, u);
        OtherParentAgrees(disk, store, c, u);
      }
    }
    forall u | u in after && (u !in store || Loads(disk, c, u)) && u != c.root
      ensures after[u].root == u && DependenciesAgree(disk, after, after[u]) && ParentAgrees(disk, after, after[u])
    {
      TreeChartAgrees(disk, store, c, u);
    }
    TreeDependenciesAgree(disk, store, c, []);
  }

  lemma TreeChartAgrees(disk: Disk, store: Store, c: Chart, u: Uri)
    requires WellNamed(c.helm) && u in Loaded(disk, store, c) && (u !in store || Loads(disk, c, u)) && u != c.root
    ensures var after := Loaded(disk, store, c);
            after[u].root == u && DependenciesAgree(disk, after, after[u]) && ParentAgrees(disk, after, after[u])
  {
    var names: seq<string>;
    if Loads(disk, c, u) {
      names :| Descend(disk, c, names).Some? && UriAt(disk, c.root, names) == u;
    } else {
      names := LoadedOnly(disk, store, c, u);
    }
    LoadedHas(disk, store, c, names);
    DescendRoot(disk, c, names);
    TreeDependenciesAgree(disk, store, c, names);
    TreeParentAgrees(disk, store, c, names);
  }

  /** Loading a whole tree into an empty store gives a consistent store. */
  lemma LoadedConsistent(disk: Disk, c: Chart)
    requires WellNamed(c.helm) && ParentOnDisk(disk, c)
    ensures Consistent(disk, Loaded(disk, map[], c)) && ParentsOnDisk(disk, Loaded(disk, map[], c))
  {
    LoadingKeepsConsistent(disk, map[], c);
    LoadedOnDisk(disk, map[], c);
  }

  // ----- histories -----

  /** The store after the first so many of a sequence of additions. */
  function Filled(disk: Disk, charts: seq<Chart>, n: nat): Store
    requires n <= |charts|
  {
    if n == 0 then map[] else Loaded(disk, Filled(disk, charts, n - 1), charts[n-1])
  }

  ghost predicate AllFit(disk: Disk, charts: seq<Chart>, n: nat)
    requires n <= |charts|
  {
    n == 0 || (AllFit(disk, charts, n - 1) && Fits(disk, Filled(disk, charts, n - 1), charts[n-1]))
  }

  ghost predicate AlwaysConsistent(disk: Disk, charts: seq<Chart>, n: nat)
    requires n <= |charts|
  {
    (n == 0 || AlwaysConsistent(disk, charts, n - 1)) && Consistent(disk, Filled(disk, charts, n))
  }

  /** Over any sequence of additions the store is consistent throughout exactly when each chart fits as it is added. */
  lemma {:induction false} FilledConsistent(disk: Disk, charts: seq<Chart>, n: nat)
    requires n <= |charts| && forall k: nat | k < n :: WellNamed(charts[k].helm) && ParentOnDisk(disk, charts[k])
    ensures AlwaysConsistent(disk, charts, n) <==> AllFit(disk, charts, n)
    ensures ParentsOnDisk(disk, Filled(disk, charts, n))
  {
    if n > 0 {
      FilledConsistent(disk, charts, n - 1);
      var before := Filled(disk, charts, n - 1);
      LoadedOnDisk(disk, before, charts[n-1]);
      if AlwaysConsistent(disk, charts, n - 1) {
        LoadingKeepsConsistent(disk, before, charts[n-1]);
      }
    }
  }
}
