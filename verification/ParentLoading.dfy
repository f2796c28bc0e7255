/** Ancestors are loaded from the disk when they are asked for and not stored. */
module ParentLoading {
  import opened Options
  import opened ChartStores
  import opened ChartPaths
  import opened ScopedValues

  /** The chart a parent lookup finds: the stored one, or the one on the disk. */
  function Found(disk: Disk, store: Store, u: Uri): Chart
    requires u in store || u in disk.charts
  {
    if u in store then store[u] else NewChart(disk, u)
  }

  lemma FetchedFinds(disk: Disk, store: Store, u: Uri)
    requires ParentsOnDisk(disk, store) && (u in store || u in disk.charts)
    ensures var r := Fetched(disk, store, u);
            u in r && r[u] == Found(disk, store, u) && ParentsOnDisk(disk, r) && r[u].root == u && ParentOnDisk(disk, r[u])
  {
    if u !in store {
      LoadedOnDisk(disk, store, NewChart(disk, u));
      LoadedRoot(disk, store, NewChart(disk, u));
    }
  }

  lemma FetchedKeepsAbove(disk: Disk, store: Store, u: Uri, v: Uri)
    requires |v| < |u|
    ensures Agree(Fetched(disk, store, u), store, v)
  {
    if u !in store && u in disk.charts {
      LoadedKeeps(disk, store, NewChart(disk, u), v);
    }
  }

  /** The ancestors of a chart with their sub-scopes, nearest first, and the store once they are loaded. */
  ghost function AncestorsFrom(disk: Disk, store: Store, c: Chart): (seq<Scoped>, Store)
    requires ParentsOnDisk(disk, store) && ParentOnDisk(disk, c)
    decreases |c.root|
  {
    if c.parent.None? then ([], store)
    else
      var u := c.parent.value;
      FetchedFinds(disk, store, u);
      var p := Found(disk, store, u);
      var above := AncestorsFrom(disk, Fetched(disk, store, u), p);
      ([Scoped([], [Name(c)], p)] + ExtendSubScope(above.0, Name(c)), above.1)
  }

  method ExtendSubScopes(list: seq<Scoped>, name: string) returns (result: seq<Scoped>)
    ensures result == ExtendSubScope(list, name)
  {
    result := list;
    for i := 0 to |result|
      invariant |result| == |list|
      invariant forall k | 0 <= k < |list| :: result[k] == if k < i then ExtendSubScope(list, name)[k] else list[k]
    {
      result := result[i := result[i].(subScope := result[i].subScope + [name])];
    }
  }

  method GetScopedParents(s: ChartStore, c: Chart) returns (result: seq<Scoped>)
    requires ParentsOnDisk(s.disk, s.charts) && ParentOnDisk(s.disk, c)
    modifies s
    ensures (result, s.charts) == AncestorsFrom(s.disk, old(s.charts), c)
    decreases |c.root|
  {
    result := [];
    if c.parent.None? {
      return;
    }
    FetchedFinds(s.disk, s.charts, c.parent.value);
    var parent := s.GetParentChart(c);
    if parent.None? {
      return;
    }
    var above := GetScopedParents(s, parent.value);
    var extended := ExtendSubScopes(above, Name(c));
    result := [Scoped([], [Name(c)], parent.value)] + extended;
  }

  method GetScopedValuesFiles(s: ChartStore, c: Chart) returns (result: seq<Scoped>)
    requires ParentsOnDisk(s.disk, s.charts) && ParentOnDisk(s.disk, c)
    modifies s
    ensures var above := AncestorsFrom(s.disk, old(s.charts), c);
            && result == [Scoped([], [], c)] + Descendants(s.disk, old(s.charts), c, |c.helm.dependencies|) + above.0
            && s.charts == above.1
  {
    result := [Scoped([], [], c)];
    var below := GetScopedDependencies(s.disk, s.charts, c);
    result := result + below;
    var above := GetScopedParents(s, c);
    result := result + above;
  }

  // ----- which charts are listed -----

  function Below(c: Chart, list: seq<Scoped>, i: nat): Chart
    requires i <= |list|
  {
    if i == 0 then c else list[i-1].chart
  }

  /** The entry of an ancestor: the parent of the one before, as it was stored or else as it is on the disk, under the names
      that lead from it down to the chart asked. */
  predicate NextAncestor(disk: Disk, store: Store, c: Chart, list: seq<Scoped>, i: nat)
    requires i < |list|
  {
    var below, u := Below(c, list, i), list[i].chart.root;
    && below.parent == Some(u) && (u in store || u in disk.charts) && list[i].chart == Found(disk, store, u)
    && list[i].scope == [] && list[i].subScope == [Name(below)] + if i == 0 then [] else list[i-1].subScope
  }

  /** The list goes up to the first chart without a parent, and its charts are stored. */
  ghost predicate Listed(disk: Disk, store: Store, c: Chart, list: seq<Scoped>, after: Store) {
    && (forall i: nat {:trigger NextAncestor(disk, store, c, list, i)} | i < |list| ::
          NextAncestor(disk, store, c, list, i) && list[i].chart.root in after)
    && Below(c, list, |list|).parent.None?
  }

  /** Every ancestor is listed once, whatever was stored before, and all of them are stored afterwards. */
  lemma {:induction false} AncestorsListed(disk: Disk, store: Store, c: Chart)
    requires ParentsOnDisk(disk, store) && ParentOnDisk(disk, c)
    ensures Listed(disk, store, c, AncestorsFrom(disk, store, c).0, AncestorsFrom(disk, store, c).1)
    decreases |c.root|
  {
    if c.parent.Some? {
      var u := c.parent.value;
      var fetched, p := Fetched(disk, store, u), Found(disk, store, u);
      FetchedFinds(disk, store, u);
      AncestorsListed(disk, fetched, p);
      AncestorsStay(disk, fetched, p, u);
      var (above, after) := AncestorsFrom(disk, fetched, p);
      KeptAbove(disk, store, c);
      ListedFromParent(disk, store, fetched, c, p, above, AncestorsFrom(disk, store, c).0, after);
    }
  }

  lemma KeptAbove(disk: Disk, store: Store, c: Chart)
    requires ParentsOnDisk(disk, store) && ParentOnDisk(disk, c) && c.parent.Some?
    requires var fetched, p := Fetched(disk, store, c.parent.value), Found(disk, store, c.parent.value);
             ParentsOnDisk(disk, fetched) && ParentOnDisk(disk, p) && p.root == c.parent.value
    ensures var fetched, p := Fetched(disk, store, c.parent.value), Found(disk, store, c.parent.value);
            forall e | e in AncestorsFrom(disk, fetched, p).0 :: Agree(fetched, store, e.chart.root)
  {
    var fetched, p := Fetched(disk, store, c.parent.value), Found(disk, store, c.parent.value);
    var above := AncestorsFrom(disk, fetched, p).0;
    forall i: nat | i < |above| ensures Agree(fetched, store, above[i].chart.root) {
      AncestorsShorten(disk, fetched, p, i);
      FetchedKeepsAbove(disk, store, p.root, above[i].chart.root);
    }
  }

  /** The list of a chart from the list of its parent. */
  predicate Extends(c: Chart, p: Chart, above: seq<Scoped>, list: seq<Scoped>) {
    && |list| == |above| + 1 && list[0] == Scoped([], [Name(c)], p)
    && forall k: nat | k < |above| :: list[k+1] == above[k].(subScope := above[k].subScope + [Name(c)])
  }

  lemma ListedFromParent(disk: Disk, store: Store, fetched: Store, c: Chart, p: Chart, above: seq<Scoped>, list: seq<Scoped>,
                         after: Store)
    requires c.parent == Some(p.root) && (p.root in store || p.root in disk.charts) && p == Found(disk, store, p.root)
    requires Listed(disk, fetched, p, above, after) && p.root in after && Extends(c, p, above, list)
    requires forall e | e in above :: Agree(fetched, store, e.chart.root)
    ensures Listed(disk, store, c, list, after)
  {
    forall i: nat | i < |list| ensures NextAncestor(disk, store, c, list, i) && list[i].chart.root in after {
      EntryFromParent(disk, store, fetched, c, p, above, list, after, i);
    }
    assert Below(c, list, |list|) == Below(p, above, |above|);
  }

  lemma EntryFromParent(disk: Disk, store: Store, fetched: Store, c: Chart, p: Chart, above: seq<Scoped>, list: seq<Scoped>,
                        after: Store, i: nat)
    requires c.parent == Some(p.root) && (p.root in store || p.root in disk.charts) && p == Found(disk, store, p.root)
    requires Listed(disk, fetched, p, above, after) && p.root in after && Extends(c, p, above, list)
    requires forall e | e in above :: Agree(fetched, store, e.chart.root)
    requires i < |list|
    ensures NextAncestor(disk, store, c, list, i) && list[i].chart.root in after
  {
    if i > 0 {
      assert NextAncestor(disk, fetched, p, above, i - 1) && above[i-1] in above;
      OneFurtherUp(disk, store, fetched, c, p, above, list, i);
    }
  }

  lemma OneFurtherUp(disk: Disk, store: Store, fetched: Store, c: Chart, p: Chart, above: seq<Scoped>, list: seq<Scoped>, i: nat)
    requires Extends(c, p, above, list) && 0 < i < |list|
    requires NextAncestor(disk, fetched, p, above, i - 1) && Agree(fetched, store, above[i-1].chart.root)
    ensures NextAncestor(disk, store, c, list, i)
  {
    var own := [Name(Below(p, above, i - 1))];
    assert list[i] == above[i-1].(subScope := above[i-1].subScope + [Name(c)]);
    assert Below(c, list, i) == Below(p, above, i - 1);
    if i > 1 {
      assert list[i-1].subScope == above[i-2].subScope + [Name(c)];
      assert own + above[i-2].subScope + [Name(c)] == own + (above[i-2].subScope + [Name(c)]);
    }
  }

  lemma {:induction false} AncestorsStay(disk: Disk, store: Store, c: Chart, u: Uri)
    requires ParentsOnDisk(disk, store) && ParentOnDisk(disk, c) && u in store
    ensures u in AncestorsFrom(disk, store, c).1
    decreases |c.root|
  {
    if c.parent.Some? {
      var p := c.parent.value;
      FetchedFinds(disk, store, p);
      FetchedGrows(disk, store, p);
      AncestorsStay(disk, Fetched(disk, store, p), Found(disk, store, p), u);
    }
  }

  lemma FetchedGrows(disk: Disk, store: Store, u: Uri)
    ensures store.Keys <= Fetched(disk, store, u).Keys
  {
    if u !in store && u in disk.charts {
      LoadedGrows(disk, store, NewChart(disk, u));
    }
  }

  lemma {:induction false} LoadedGrows(disk: Disk, store: Store, c: Chart)
    ensures store.Keys <= Loaded(disk, store, c).Keys
    decreases c.helm, 1
  {
    DependenciesGrow(disk, store[c.root := c], c, |c.helm.dependencies|);
  }

  lemma {:induction false} DependenciesGrow(disk: Disk, store: Store, c: Chart, n: nat)
    requires n <= |c.helm.dependencies|
    ensures store.Keys <= LoadedDependencies(disk, store, c, n).Keys
    decreases c.helm, 0, n
  {
    if n > 0 {
      DependenciesGrow(disk, store, c, n - 1);
      LoadedGrows(disk, LoadedDependencies(disk, store, c, n - 1), DependencyChart(disk, c, c.helm.dependencies[n-1]));
    }
  }

  lemma {:induction false} AncestorsShorten(disk: Disk, store: Store, c: Chart, i: nat)
    requires ParentsOnDisk(disk, store) && ParentOnDisk(disk, c) && i < |AncestorsFrom(disk, store, c).0|
    ensures |AncestorsFrom(disk, store, c).0[i].chart.root| < |c.root|
    decreases |c.root|
  {
    var u := c.parent.value;
    FetchedFinds(disk, store, u);
    if i > 0 {
      AncestorsShorten(disk, Fetched(disk, store, u), Found(disk, store, u), i - 1);
    }
  }

  // ----- stores that hold all parents -----

  predicate ParentsStored(store: Store) {
    forall u | u in store && store[u].parent.Some? :: store[u].parent.value in store
  }

  /** Where all parents are stored, nothing is loaded, and the list is the one read off the store. */
  lemma {:induction false} StoredParentsSuffice(disk: Disk, store: Store, c: Chart)
    requires ParentsOnDisk(disk, store) && ParentsStored(store) && Shrinking(store) && c.root in store && store[c.root] == c
    ensures AncestorsFrom(disk, store, c) == (Ancestors(store, c), store)
    decreases |c.root|
  {
    if c.parent.Some? {
      StoredParentsSuffice(disk, store, store[c.parent.value]);
    }
  }

  /** Loading a chart whose parent is stored, or that has none, leaves all parents stored. */
  lemma {:induction false} LoadedParentsStored(disk: Disk, store: Store, c: Chart)
    requires ParentsStored(store) && (c.parent.Some? ==> c.parent.value in store)
    ensures ParentsStored(Loaded(disk, store, c))
    decreases c.helm, 1
  {
    DependenciesParentsStored(disk, store[c.root := c], c, |c.helm.dependencies|);
  }

  lemma {:induction false} DependenciesParentsStored(disk: Disk, store: Store, c: Chart, n: nat)
    requires ParentsStored(store) && c.root in store && n <= |c.helm.dependencies|
    ensures ParentsStored(LoadedDependencies(disk, store, c, n))
    decreases c.helm, 0, n
  {
    if n > 0 {
      DependenciesParentsStored(disk, store, c, n - 1);
      DependenciesGrow(disk, store, c, n - 1);
      var d := DependencyChart(disk, c, c.helm.dependencies[n-1]);
      DependencyParent(disk, c.root, d.metadataName);
      LoadedParentsStored(disk, LoadedDependencies(disk, store, c, n - 1), d);
    }
  }
}
