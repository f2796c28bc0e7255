/** Which charts of a loaded tree know what lies above them. */
module LoadedTrees {
  import opened Options
  import opened ChartStores
  import opened ChartPaths
  import opened StoreConsistency

  /** The directory of a descendant when every dependency on the way is unpacked. */
  function Unpacked(root: Uri, names: seq<string>): Uri {
    if names == [] then root else Unpacked(root, names[..|names|-1]) + ["charts", names[|names|-1]]
  }

  /** Every dependency on the way is unpacked, and lies under a directory with a chart. */
  predicate AllUnpacked(disk: Disk, root: Uri, names: seq<string>) {
    names == [] ||
    (var init := names[..|names|-1];
     AllUnpacked(disk, root, init) && Unpacked(root, init) in disk.charts && Unpacked(root, names) in disk.directories)
  }

  /** A dependency has its chart as its parent exactly if it is unpacked and that chart is on disk. One in the cache folder has no
      parent at all. */
  lemma ParentExactly(disk: Disk, root: Uri, name: string)
    ensures var u := DependencyUri(disk, root, name);
            ParentOf(disk, u) ==
              if root + ["charts", name] in disk.directories && root in disk.charts then Some(root) else None
    ensures root + ["charts", name] in disk.directories ==> DependencyUri(disk, root, name) == root + ["charts", name]
  {
    var u := DependencyUri(disk, root, name);
    if root + ["charts", name] in disk.directories {
      assert u[..|u|-2] == root;
    } else {
      assert u[|u|-2] == CACHE;
    }
  }

  lemma {:induction false} UnpackedUri(disk: Disk, root: Uri, names: seq<string>)
    requires AllUnpacked(disk, root, names)
    ensures UriAt(disk, root, names) == Unpacked(root, names)
    decreases |names|
  {
    if names != [] {
      UnpackedUri(disk, root, names[..|names|-1]);
    }
  }

  /** On the way down every chart is stored under its name, with the one before as its parent. */
  predicate Linked(store: Store, root: Uri, names: seq<string>) {
    names == [] ||
    (var init, u := names[..|names|-1], Unpacked(root, names);
     && Linked(store, root, init)
     && u in store && store[u].metadataName == names[|names|-1] && ParentIn(store, store[u]) == Some(Unpacked(root, init)))
  }

  lemma {:induction false} LinkedKnowsTop(store: Store, root: Uri, names: seq<string>)
    requires Shrinking(store) && root in store && ParentIn(store, store[root]) == None && Linked(store, root, names)
    ensures var u := Unpacked(root, names); u in store && Top(store, u) == root && PathFromTop(store, u) == names
    decreases |names|
  {
    if names != [] {
      LinkedKnowsTop(store, root, names[..|names|-1]);
    }
  }

  /** An unpacked dependency is stored, under its name and with its chart as its parent. */
  lemma UnpackedStored(disk: Disk, c: Chart, names: seq<string>)
    requires c.root in disk.charts && WellNamed(c.helm) && names != []
    requires Descend(disk, c, names).Some? && AllUnpacked(disk, c.root, names)
    ensures var store, u, p := Loaded(disk, map[], c), Unpacked(c.root, names), Unpacked(c.root, names[..|names|-1]);
            && u in store && store[u].metadataName == names[|names|-1] && store[u].parent == Some(p)
            && p in store && Descend(disk, c, names[..|names|-1]).Some?
  {
    var init, last := names[..|names|-1], names[|names|-1];
    UnpackedUri(disk, c.root, names);
    UnpackedUri(disk, c.root, init);
    LoadedHas(disk, map[], c, names);
    LoadedHas(disk, map[], c, init);
    DescendRoot(disk, c, init);
    ParentExactly(disk, Unpacked(c.root, init), last);
  }

  lemma {:induction false} UnpackedLinked(disk: Disk, c: Chart, names: seq<string>)
    requires c.root in disk.charts && WellNamed(c.helm) && Descend(disk, c, names).Some? && AllUnpacked(disk, c.root, names)
    ensures Linked(Loaded(disk, map[], c), c.root, names)
    decreases |names|
  {
    if names != [] {
      UnpackedStored(disk, c, names);
      UnpackedLinked(disk, c, names[..|names|-1]);
    }
  }

  /** When a chart without a parent is loaded from disk, every descendant that is unpacked all the way knows its topmost ancestor, and
      the names from there down to it. */
  lemma UnpackedKnowsTop(disk: Disk, c: Chart, names: seq<string>)
    requires c.root in disk.charts && c == NewChart(disk, c.root) && c.parent == None && WellNamed(c.helm)
    requires Descend(disk, c, names).Some? && AllUnpacked(disk, c.root, names)
    ensures var store, u := Loaded(disk, map[], c), Unpacked(c.root, names);
            Shrinking(store) && u in store && Top(store, u) == c.root && PathFromTop(store, u) == names
  {
    LoadedConsistent(disk, c);
    ConsistentShrinks(disk, Loaded(disk, map[], c));
    LoadedHas(disk, map[], c, []);
    UnpackedLinked(disk, c, names);
    LinkedKnowsTop(Loaded(disk, map[], c), c.root, names);
  }

  /** A dependency that lies in the cache folder knows nothing above it. */
  lemma CachedKnowsNothing(disk: Disk, c: Chart, names: seq<string>, name: string)
    requires c.root in disk.charts && c == NewChart(disk, c.root) && WellNamed(c.helm) && Descend(disk, c, names + [name]).Some?
    requires UriAt(disk, c.root, names) + ["charts", name] !in disk.directories
    ensures var store, u := Loaded(disk, map[], c), UriAt(disk, c.root, names + [name]);
            Shrinking(store) && u in store && Top(store, u) == u && PathFromTop(store, u) == []
  {
    var store, all := Loaded(disk, map[], c), names + [name];
    LoadedConsistent(disk, c);
    ConsistentShrinks(disk, store);
    LoadedHas(disk, map[], c, all);
    assert all[..|all|-1] == names;
    DescendRoot(disk, c, names);
    ParentExactly(disk, UriAt(disk, c.root, names), name);
  }

  /** A chart that is loaded by itself from where an unpacked dependency lies is found from its parent under its own name, also when
      it names itself nowhere and so goes by its directory. */
  lemma UnnamedIsFound(disk: Disk, store: Store, root: Uri, name: string)
    requires root in store && store[root].root == root && IndexOf(store[root].helm.dependencies, name) < |store[root].helm.dependencies|
    requires var u := root + ["charts", name];
             && u in disk.directories && u in disk.charts && u in store && store[u] == NewChart(disk, u)
             && (disk.charts[u].helm.name == "" || disk.charts[u].helm.name == name)
    ensures var u := root + ["charts", name]; DependencyNamed(disk, store, root, Name(store[u])) == Some(u)
  {
    ParentExactly(disk, root, name);
  }
}
