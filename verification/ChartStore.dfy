/** Charts by their directory, and how a chart's dependency tree is loaded. */
module ChartStores {
  import opened Options

  /** A directory, by the names along its path. */
  type Uri = seq<string>

  datatype HelmChart = HelmChart(name: string, dependencies: seq<HelmChart>)

  datatype Chart = Chart(root: Uri, metadataName: string, parent: Option<Uri>, helm: HelmChart)

  /** What the loader makes of a directory with a Chart.yaml. */
  datatype DiskChart = DiskChart(metadataName: string, helm: HelmChart)

  /** What the file system answers: which paths are directories, and which of them hold a chart. */
  datatype Disk = Disk(directories: set<Uri>, charts: map<Uri, DiskChart>)

  type Store = map<Uri, Chart>

  const CACHE := ".helm_ls_cache"

  /** A dependency lies unpacked under `charts`, or else in the cache folder there. */
  function DependencyUri(disk: Disk, root: Uri, name: string): Uri {
    if root + ["charts", name] in disk.directories then root + ["charts", name] else root + ["charts", CACHE, name]
  }

  /** Only a directory right under the `charts` of a chart has a parent. */
  function ParentOf(disk: Disk, root: Uri): Option<Uri> {
    if |root| >= 2 && root[|root|-2] == "charts" && root[..|root|-2] in disk.charts then Some(root[..|root|-2]) else None
  }

  function NewChart(disk: Disk, root: Uri): Chart
    requires root in disk.charts
  {
    Chart(root, disk.charts[root].metadataName, ParentOf(disk, root), disk.charts[root].helm)
  }

  function Name(c: Chart): string {
    if c.helm.name != "" || c.root == [] then c.helm.name else c.root[|c.root|-1]
  }

  /** The directory tells the chart it is a dependency of, and the dependency's name. */
  lemma DependencyUriInjective(disk: Disk, root: Uri, name: string, other: Uri, otherName: string)
    requires DependencyUri(disk, root, name) == DependencyUri(disk, other, otherName)
    ensures root == other && name == otherName
  {
    var u, v := DependencyUri(disk, root, name), DependencyUri(disk, other, otherName);
    assert u[|u|-1] == name && v[|v|-1] == otherName;
    assert u[|u|-2] == "charts" || u[|u|-2] == CACHE;
    if u[|u|-2] == "charts" {
      assert u[..|u|-2] == root && v[..|v|-2] == other;
    } else {
      assert u[..|u|-3] == root && v[..|v|-3] == other;
    }
  }

  // ----- dependencies by name -----

  function IndexOf(ds: seq<HelmChart>, name: string): (i: nat)
    ensures i <= |ds|
    ensures i < |ds| ==> ds[i].name == name
    ensures forall k | 0 <= k < i :: ds[k].name != name
  {
    if ds == [] || ds[0].name == name then 0 else 1 + IndexOf(ds[1..], name)
  }

  predicate UniqueNames(ds: seq<HelmChart>) {
    forall i, j | 0 <= i < j < |ds| :: ds[i].name != ds[j].name
  }

  /** Names are not empty, and siblings have different ones. */
  predicate WellNamed(helm: HelmChart) {
    && UniqueNames(helm.dependencies)
    && forall d | d in helm.dependencies :: d.name != "" && WellNamed(d)
  }

  // ----- loading -----

  function DependencyChart(disk: Disk, c: Chart, d: HelmChart): Chart {
    var root := DependencyUri(disk, c.root, d.name);
    Chart(root, d.name, ParentOf(disk, root), d)
  }

  function Loaded(disk: Disk, store: Store, c: Chart): Store
    decreases c.helm, 1
  {
    LoadedDependencies(disk, store[c.root := c], c, |c.helm.dependencies|)
  }

  function LoadedDependencies(disk: Disk, store: Store, c: Chart, n: nat): Store
    requires n <= |c.helm.dependencies|
    decreases c.helm, 0, n
  {
    if n == 0 then store
    else Loaded(disk, LoadedDependencies(disk, store, c, n - 1), DependencyChart(disk, c, c.helm.dependencies[n-1]))
  }

  /** A chart that is asked for is loaded from the disk if it is not stored. */
  function Fetched(disk: Disk, store: Store, u: Uri): Store {
    if u in store || u !in disk.charts then store else Loaded(disk, store, NewChart(disk, u))
  }

  class ChartStore {
    const disk: Disk
    var charts: Store

    constructor (disk: Disk)
      ensures this.disk == disk && charts == map[]
    {
      this.disk := disk;
      charts := map[];
    }

    method AddChart(chart: Chart)
      modifies this
      ensures charts == Loaded(disk, old(charts), chart)
      decreases chart.helm, 1
    {
      charts := charts[chart.root := chart];
      LoadChartDependencies(chart);
    }

    method LoadChartDependencies(chart: Chart)
      modifies this
      ensures charts == LoadedDependencies(disk, old(charts), chart, |chart.helm.dependencies|)
      decreases chart.helm, 0
    {
      for i := 0 to |chart.helm.dependencies|
        invariant charts == LoadedDependencies(disk, old(charts), chart, i)
      {
        var dependency := chart.helm.dependencies[i];
        var root := DependencyUri(disk, chart.root, dependency.name);
        AddChart(Chart(root, dependency.name, ParentOf(disk, root), dependency));
      }
    }

    method GetChartForURI(u: Uri) returns (chart: Option<Chart>)
      modifies this
      ensures charts == Fetched(disk, old(charts), u)
      ensures chart == if u in charts then Some(charts[u]) else None
    {
      if u in charts {
        return Some(charts[u]);
      }
      if u !in disk.charts {
        return None;
      }
      var loaded := NewChart(disk, u);
      AddChart(loaded);
      LoadedRoot(disk, old(charts), loaded);
      return Some(loaded);
    }

    method GetParentChart(c: Chart) returns (parent: Option<Chart>)
      modifies this
      ensures charts == if c.parent.Some? then Fetched(disk, old(charts), c.parent.value) else old(charts)
      ensures parent == if c.parent.Some? && c.parent.value in charts then Some(charts[c.parent.value]) else None
    {
      if c.parent.None? {
        return None;
      }
      parent := GetChartForURI(c.parent.value);
    }
  }

  // ----- what is loaded -----

  function UriAt(disk: Disk, root: Uri, names: seq<string>): (u: Uri)
    ensures |u| >= |root| + |names|
  {
    if names == [] then root else DependencyUri(disk, UriAt(disk, root, names[..|names|-1]), names[|names|-1])
  }

  lemma {:induction false} UriAtInjective(disk: Disk, root: Uri, names: seq<string>, others: seq<string>)
    requires UriAt(disk, root, names) == UriAt(disk, root, others)
    ensures names == others
    decreases |names|
  {
    if names != [] && others != [] {
      var init, otherInit := names[..|names|-1], others[..|others|-1];
      DependencyUriInjective(disk, UriAt(disk, root, init), names[|names|-1], UriAt(disk, root, otherInit), others[|others|-1]);
      UriAtInjective(disk, root, init, otherInit);
      assert names == init + [names[|names|-1]] && others == otherInit + [others[|others|-1]];
    }
  }

  lemma {:induction false} UriAtCons(disk: Disk, root: Uri, name: string, names: seq<string>)
    ensures UriAt(disk, root, [name] + names) == UriAt(disk, DependencyUri(disk, root, name), names)
    decreases |names|
  {
    var all := [name] + names;
    if names == [] {
      assert all[..0] == [];
    } else {
      assert all[..|all|-1] == [name] + names[..|names|-1];
      UriAtCons(disk, root, name, names[..|names|-1]);
    }
  }

  /** The chart at a path of names below a chart. */
  function Descend(disk: Disk, c: Chart, names: seq<string>): Option<Chart>
    decreases |names|
  {
    if names == [] then Some(c)
    else
      var above := Descend(disk, c, names[..|names|-1]);
      if above.None? then None
      else
        var ds := above.value.helm.dependencies;
        var i := IndexOf(ds, names[|names|-1]);
        if i == |ds| then None else Some(DependencyChart(disk, above.value, ds[i]))
  }

  lemma {:induction false} DescendRoot(disk: Disk, c: Chart, names: seq<string>)
    requires Descend(disk, c, names).Some?
    ensures Descend(disk, c, names).value.root == UriAt(disk, c.root, names)
    decreases |names|
  {
    if names != [] {
      DescendRoot(disk, c, names[..|names|-1]);
    }
  }

  lemma {:induction false} DescendCons(disk: Disk, c: Chart, i: nat, names: seq<string>)
    requires i < |c.helm.dependencies| && UniqueNames(c.helm.dependencies)
    ensures Descend(disk, c, [c.helm.dependencies[i].name] + names) ==
            Descend(disk, DependencyChart(disk, c, c.helm.dependencies[i]), names)
    decreases |names|
  {
    var name := c.helm.dependencies[i].name;
    var all := [name] + names;
    if names == [] {
      assert all[..0] == [] && IndexOf(c.helm.dependencies, name) == i;
    } else {
      var init := names[..|names|-1];
      assert all[..|all|-1] == [name] + init && all[|all|-1] == names[|names|-1];
      DescendCons(disk, c, i, init);
    }
  }

  lemma {:induction false} DescendHead(disk: Disk, c: Chart, names: seq<string>)
    requires names != [] && Descend(disk, c, names).Some?
    ensures IndexOf(c.helm.dependencies, names[0]) < |c.helm.dependencies|
    decreases |names|
  {
    if |names| > 1 {
      DescendHead(disk, c, names[..|names|-1]);
    } else {
      assert names[..0] == [];
    }
  }

  lemma UriBelow(disk: Disk, c: Chart, d: HelmChart, x: seq<string>, names: seq<string>)
    requires UriAt(disk, DependencyUri(disk, c.root, d.name), x) == UriAt(disk, c.root, names)
    ensures names == [d.name] + x
  {
    UriAtCons(disk, c.root, d.name, x);
    UriAtInjective(disk, c.root, [d.name] + x, names);
  }

  lemma NotBelowOther(disk: Disk, c: Chart, d: HelmChart, names: seq<string>)
    requires names != [] && names[0] != d.name
    ensures !Below(disk, DependencyUri(disk, c.root, d.name), UriAt(disk, c.root, names))
  {
    forall x | UriAt(disk, DependencyUri(disk, c.root, d.name), x) == UriAt(disk, c.root, names) ensures false {
      UriBelow(disk, c, d, x, names);
    }
  }

  ghost predicate Below(disk: Disk, root: Uri, u: Uri) {
    exists names :: UriAt(disk, root, names) == u
  }

  ghost predicate ProperlyBelow(disk: Disk, root: Uri, u: Uri) {
    exists names :: names != [] && UriAt(disk, root, names) == u
  }

  predicate Agree(store: Store, other: Store, u: Uri) {
    (u in store <==> u in other) && (u in store ==> store[u] == other[u])
  }

  /** Loading a chart touches nothing outside its directory tree. */
  lemma {:induction false} LoadedKeeps(disk: Disk, store: Store, c: Chart, u: Uri)
    requires !Below(disk, c.root, u)
    ensures Agree(Loaded(disk, store, c), store, u)
    decreases c.helm, 1
  {
    assert UriAt(disk, c.root, []) == c.root;
    DependenciesKeep(disk, store[c.root := c], c, |c.helm.dependencies|, u);
  }

  lemma {:induction false} DependenciesKeep(disk: Disk, store: Store, c: Chart, n: nat, u: Uri)
    requires n <= |c.helm.dependencies| && !ProperlyBelow(disk, c.root, u)
    ensures Agree(LoadedDependencies(disk, store, c, n), store, u)
    decreases c.helm, 0, n
  {
    if n > 0 {
      var d := DependencyChart(disk, c, c.helm.dependencies[n-1]);
      DependenciesKeep(disk, store, c, n - 1, u);
      forall x ensures UriAt(disk, d.root, x) != u {
        UriAtCons(disk, c.root, d.metadataName, x);
      }
      LoadedKeeps(disk, LoadedDependencies(disk, store, c, n - 1), d, u);
    }
  }

  lemma LoadedRoot(disk: Disk, store: Store, c: Chart)
    ensures c.root in Loaded(disk, store, c) && Loaded(disk, store, c)[c.root] == c
  {
    DependenciesKeep(disk, store[c.root := c], c, |c.helm.dependencies|, c.root);
  }

  /** Every chart of the tree is stored at its directory. */
  lemma {:induction false} LoadedHas(disk: Disk, store: Store, c: Chart, names: seq<string>)
    requires WellNamed(c.helm) && Descend(disk, c, names).Some?
    ensures var u := UriAt(disk, c.root, names);
            u in Loaded(disk, store, c) && Loaded(disk, store, c)[u] == Descend(disk, c, names).value
    decreases c.helm, 1
  {
    var n := |c.helm.dependencies|;
    if names == [] {
      DependenciesKeep(disk, store[c.root := c], c, n, c.root);
    } else {
      DescendHead(disk, c, names);
      DependenciesHave(disk, store[c.root := c], c, n, names);
    }
  }

  lemma {:induction false} DependenciesHave(disk: Disk, store: Store, c: Chart, n: nat, names: seq<string>)
    requires WellNamed(c.helm) && n <= |c.helm.dependencies| && names != [] && Descend(disk, c, names).Some?
    requires IndexOf(c.helm.dependencies, names[0]) < n
    ensures var u, r := UriAt(disk, c.root, names), LoadedDependencies(disk, store, c, n);
            u in r && r[u] == Descend(disk, c, names).value
    decreases c.helm, 0, n
  {
    var d := DependencyChart(disk, c, c.helm.dependencies[n-1]);
    var before := LoadedDependencies(disk, store, c, n - 1);
    if IndexOf(c.helm.dependencies, names[0]) == n - 1 {
      FirstName(disk, c, names);
      assert d.helm in c.helm.dependencies && WellNamed(d.helm);
      LoadedHas(disk, before, d, names[1..]);
    } else {
      DependenciesHave(disk, store, c, n - 1, names);
      NotBelowOther(disk, c, d.helm, names);
      LoadedKeeps(disk, before, d, UriAt(disk, c.root, names));
    }
  }

  lemma FirstName(disk: Disk, c: Chart, names: seq<string>)
    requires UniqueNames(c.helm.dependencies) && names != [] && IndexOf(c.helm.dependencies, names[0]) < |c.helm.dependencies|
    ensures var d := DependencyChart(disk, c, c.helm.dependencies[IndexOf(c.helm.dependencies, names[0])]);
            Descend(disk, d, names[1..]) == Descend(disk, c, names) && UriAt(disk, d.root, names[1..]) == UriAt(disk, c.root, names)
  {
    assert names == [names[0]] + names[1..];
    DescendCons(disk, c, IndexOf(c.helm.dependencies, names[0]), names[1..]);
    UriAtCons(disk, c.root, names[0], names[1..]);
  }

  /** Nothing else is stored. */
  lemma {:induction false} LoadedOnly(disk: Disk, store: Store, c: Chart, u: Uri) returns (names: seq<string>)
    requires WellNamed(c.helm) && u in Loaded(disk, store, c) && u !in store
    ensures Descend(disk, c, names).Some? && UriAt(disk, c.root, names) == u
    decreases c.helm, 1
  {
    if u == c.root {
      names := [];
    } else {
      names := DependenciesOnly(disk, store[c.root := c], c, |c.helm.dependencies|, u);
    }
  }

  lemma {:induction false} DependenciesOnly(disk: Disk, store: Store, c: Chart, n: nat, u: Uri) returns (names: seq<string>)
    requires WellNamed(c.helm) && n <= |c.helm.dependencies|
    requires u in LoadedDependencies(disk, store, c, n) && u !in store
    ensures Descend(disk, c, names).Some? && UriAt(disk, c.root, names) == u
    decreases c.helm, 0, n
  {
    var before := LoadedDependencies(disk, store, c, n - 1);
    if u in before {
      names := DependenciesOnly(disk, store, c, n - 1, u);
    } else {
      var d := DependencyChart(disk, c, c.helm.dependencies[n-1]);
      var rest := LoadedOnly(disk, before, d, u);
      names := [d.metadataName] + rest;
      DescendCons(disk, c, n - 1, rest);
      UriAtCons(disk, c.root, d.metadataName, rest);
    }
  }

  // ----- consistent stores -----

  function ParentIn(store: Store, c: Chart): Option<Uri> {
    if c.parent.Some? && c.parent.value in store then c.parent else None
  }

  predicate Depends(disk: Disk, c: Chart, u: Uri) {
    exists i :: 0 <= i < |c.helm.dependencies| && DependencyUri(disk, c.root, c.helm.dependencies[i].name) == u
  }

  /** A chart agrees with its dependencies on their names, and those that have a parent have it. */
  predicate DependenciesAgree(disk: Disk, store: Store, c: Chart) {
    && UniqueNames(c.helm.dependencies)
    && forall i | 0 <= i < |c.helm.dependencies| ::
         var name := c.helm.dependencies[i].name;
         var u := DependencyUri(disk, c.root, name);
         u in store ==> store[u].metadataName == name && Name(store[u]) == name &&
                        (ParentIn(store, store[u]) == None || ParentIn(store, store[u]) == Some(c.root))
  }

  predicate ParentAgrees(disk: Disk, store: Store, c: Chart) {
    var p := ParentIn(store, c);
    p.Some? ==> Depends(disk, store[p.value], c.root)
  }

  predicate Consistent(disk: Disk, store: Store) {
    forall u | u in store :: store[u].root == u && DependenciesAgree(disk, store, store[u]) && ParentAgrees(disk, store, store[u])
  }

  lemma DependencyParent(disk: Disk, root: Uri, name: string)
    ensures var u := DependencyUri(disk, root, name); ParentOf(disk, u) == None || ParentOf(disk, u) == Some(root)
  {
    var u := DependencyUri(disk, root, name);
    assert u[|u|-2] == "charts" ==> u[..|u|-2] == root;
    assert u[|u|-2] == "charts" || u[|u|-2] == CACHE;
  }

  lemma {:induction false} DescendWellNamed(disk: Disk, c: Chart, names: seq<string>)
    requires WellNamed(c.helm) && Descend(disk, c, names).Some?
    ensures WellNamed(Descend(disk, c, names).value.helm)
    decreases |names|
  {
    if names != [] {
      DescendWellNamed(disk, c, names[..|names|-1]);
    }
  }

  /** A chart's parent, if it was given one, is the one its directory tells. */
  predicate ParentOnDisk(disk: Disk, c: Chart) {
    c.parent.Some? ==> c.parent == ParentOf(disk, c.root)
  }

  predicate ParentsOnDisk(disk: Disk, store: Store) {
    forall u | u in store :: store[u].root == u && ParentOnDisk(disk, store[u])
  }

  lemma {:induction false} LoadedOnDisk(disk: Disk, store: Store, c: Chart)
    requires ParentsOnDisk(disk, store) && ParentOnDisk(disk, c)
    ensures ParentsOnDisk(disk, Loaded(disk, store, c))
    decreases c.helm, 1
  {
    DependenciesOnDisk(disk, store[c.root := c], c, |c.helm.dependencies|);
  }

  lemma {:induction false} DependenciesOnDisk(disk: Disk, store: Store, c: Chart, n: nat)
    requires ParentsOnDisk(disk, store) && n <= |c.helm.dependencies|
    ensures ParentsOnDisk(disk, LoadedDependencies(disk, store, c, n))
    decreases c.helm, 0, n
  {
    if n > 0 {
      DependenciesOnDisk(disk, store, c, n - 1);
      LoadedOnDisk(disk, LoadedDependencies(disk, store, c, n - 1), DependencyChart(disk, c, c.helm.dependencies[n-1]));
    }
  }
}
