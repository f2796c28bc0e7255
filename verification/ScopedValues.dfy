/** The values files that matter to a chart: its own, its descendants' and its ancestors', each with the scope that links them. */
module ScopedValues {
  import opened Options
  import opened ChartStores
  import opened ChartPaths
  import opened ChartResolution

  /** `scope` leads from the chart asked down to a descendant, `subScope` from an ancestor down to the chart asked. */
  datatype Scoped = Scoped(scope: seq<string>, subScope: seq<string>, chart: Chart)

  predicate Keyed(store: Store) {
    forall u | u in store :: store[u].root == u
  }

  /** The stored charts in deeper directories: what is left to visit below a chart. */
  function Deeper(store: Store, root: Uri): set<Uri> {
    set u | u in store && |u| > |root|
  }

  function PrefixScope(name: string, list: seq<Scoped>): (r: seq<Scoped>)
    ensures |r| == |list|
    ensures forall i | 0 <= i < |list| :: r[i] == list[i].(scope := [name] + list[i].scope)
  {
    if list == [] then [] else PrefixScope(name, list[..|list|-1]) + [list[|list|-1].(scope := [name] + list[|list|-1].scope)]
  }

  function ExtendSubScope(list: seq<Scoped>, name: string): (r: seq<Scoped>)
    ensures |r| == |list|
    ensures forall i | 0 <= i < |list| :: r[i] == list[i].(subScope := list[i].subScope + [name])
  {
    if list == [] then []
    else ExtendSubScope(list[..|list|-1], name) + [list[|list|-1].(subScope := list[|list|-1].subScope + [name])]
  }

  // ----- descendants -----

  function Descendants(disk: Disk, store: Store, c: Chart, n: nat): seq<Scoped>
    requires Keyed(store) && n <= |c.helm.dependencies|
    decreases Deeper(store, c.root), n
  {
    if n == 0 then []
    else
      var name := c.helm.dependencies[n-1].name;
      var u := DependencyUri(disk, c.root, name);
      var before := Descendants(disk, store, c, n - 1);
      if u !in store then before
      else
        var d := store[u];
        assert u in Deeper(store, c.root) && u !in Deeper(store, u);
        before + [Scoped([name], [], d)] + PrefixScope(name, Descendants(disk, store, d, |d.helm.dependencies|))
  }

  method GetScopedDependencies(disk: Disk, store: Store, c: Chart) returns (result: seq<Scoped>)
    requires Keyed(store)
    ensures result == Descendants(disk, store, c, |c.helm.dependencies|)
    decreases Deeper(store, c.root)
  {
    result := [];
    for k := 0 to |c.helm.dependencies|
      invariant result == Descendants(disk, store, c, k)
    {
      var name := c.helm.dependencies[k].name;
      var u := DependencyUri(disk, c.root, name);
      if u in store {
        var d := store[u];
        assert u in Deeper(store, c.root) && u !in Deeper(store, u);
        result := result + [Scoped([name], [], d)];
        var below := GetScopedDependencies(disk, store, d);
        var prefixed := PrefixScopes(name, below);
        result := result + prefixed;
      }
    }
  }

  /** Rewrites the scopes of a list in place. */
  method PrefixScopes(name: string, list: seq<Scoped>) returns (result: seq<Scoped>)
    ensures result == PrefixScope(name, list)
  {
    result := list;
    for i := 0 to |result|
      invariant |result| == |list|
      invariant forall k | 0 <= k < |list| :: result[k] == if k < i then PrefixScope(name, list)[k] else list[k]
    {
      result := result[i := result[i].(scope := [name] + result[i].scope)];
    }
  }

  // ----- ancestors -----

  function Ancestors(store: Store, c: Chart): seq<Scoped>
    requires Keyed(store) && Shrinking(store) && c.root in store && store[c.root] == c
    decreases |c.root|
  {
    var parent := ParentIn(store, c);
    if parent.None? then []
    else
      var p := store[parent.value];
      [Scoped([], [Name(c)], p)] + ExtendSubScope(Ancestors(store, p), Name(c))
  }

  function ScopedValuesFiles(disk: Disk, store: Store, c: Chart): seq<Scoped>
    requires Keyed(store) && Shrinking(store) && c.root in store && store[c.root] == c
  {
    [Scoped([], [], c)] + Descendants(disk, store, c, |c.helm.dependencies|) + Ancestors(store, c)
  }

  // ----- the scopes lead where they say -----

  /** A list of descendants of a chart: each scope is not empty and leads to its chart. */
  ghost predicate LeadsDown(disk: Disk, store: Store, root: Uri, e: Scoped)
    requires root in store
  {
    e.subScope == [] && e.scope != [] && Follow(disk, store, root, e.scope) == Some(e.chart.root) &&
    e.chart.root in store && e.chart == store[e.chart.root]
  }

  lemma {:induction false} FollowCons(disk: Disk, store: Store, root: Uri, name: string, names: seq<string>)
    requires root in store && DependencyNamed(disk, store, root, name).Some?
    ensures Follow(disk, store, root, [name] + names) == Follow(disk, store, DependencyNamed(disk, store, root, name).value, names)
    decreases |names|
  {
    var all := [name] + names;
    if names == [] {
      assert all[..0] == [];
    } else {
      var init := names[..|names|-1];
      assert all[..|all|-1] == [name] + init && all[|all|-1] == names[|names|-1];
      FollowCons(disk, store, root, name, init);
    }
  }

  lemma {:induction false} DescendantsLead(disk: Disk, store: Store, c: Chart, n: nat, i: nat)
    requires Keyed(store) && n <= |c.helm.dependencies| && c.root in store && store[c.root] == c
    requires i < |Descendants(disk, store, c, n)|
    ensures LeadsDown(disk, store, c.root, Descendants(disk, store, c, n)[i])
    decreases Deeper(store, c.root), n
  {
    var name := c.helm.dependencies[n-1].name;
    var u := DependencyUri(disk, c.root, name);
    var before := Descendants(disk, store, c, n - 1);
    if i < |before| {
      DescendantsLead(disk, store, c, n - 1, i);
    } else {
      var d := store[u];
      assert u in Deeper(store, c.root) && u !in Deeper(store, u);
      assert DependencyNamed(disk, store, c.root, name) == Some(u) by { assert IndexOf(c.helm.dependencies, name) <= n - 1; }
      if i == |before| {
        FollowCons(disk, store, c.root, name, []);
      } else {
        var below := Descendants(disk, store, d, |d.helm.dependencies|);
        var j := i - |before| - 1;
        DescendantsLead(disk, store, d, |d.helm.dependencies|, j);
        FollowCons(disk, store, c.root, name, below[j].scope);
      }
    }
  }

  lemma {:induction false} FollowHead(disk: Disk, store: Store, root: Uri, names: seq<string>)
    requires root in store && names != [] && Follow(disk, store, root, names).Some?
    ensures DependencyNamed(disk, store, root, names[0]).Some?
    decreases |names|
  {
    if |names| == 1 {
      assert names[..0] == [];
    } else {
      FollowHead(disk, store, root, names[..|names|-1]);
    }
  }

  /** A path goes through the dependency it begins with. */
  lemma FirstStep(disk: Disk, store: Store, c: Chart, names: seq<string>)
    requires Keyed(store) && c.root in store && store[c.root] == c
    requires names != [] && Follow(disk, store, c.root, names).Some?
    ensures var u := DependencyUri(disk, c.root, names[0]);
            && u in Deeper(store, c.root) && Follow(disk, store, u, names[1..]) == Follow(disk, store, c.root, names)
            && (|names| > 1 ==> IndexOf(store[u].helm.dependencies, names[1]) < |store[u].helm.dependencies|)
  {
    FollowHead(disk, store, c.root, names);
    var u := DependencyUri(disk, c.root, names[0]);
    assert names == [names[0]] + names[1..];
    FollowCons(disk, store, c.root, names[0], names[1..]);
    if |names| > 1 {
      FollowHead(disk, store, u, names[1..]);
    }
  }

  /** Every stored descendant is listed. */
  lemma {:induction false} DescendantsComplete(disk: Disk, store: Store, c: Chart, n: nat, names: seq<string>) returns (i: nat)
    requires Keyed(store) && n <= |c.helm.dependencies| && c.root in store && store[c.root] == c
    requires names != [] && Follow(disk, store, c.root, names).Some? && IndexOf(c.helm.dependencies, names[0]) < n
    ensures i < |Descendants(disk, store, c, n)| && Descendants(disk, store, c, n)[i].scope == names
    decreases Deeper(store, c.root), n
  {
    var before := Descendants(disk, store, c, n - 1);
    if IndexOf(c.helm.dependencies, names[0]) < n - 1 {
      i := DescendantsComplete(disk, store, c, n - 1, names);
    } else {
      FirstStep(disk, store, c, names);
      var d := store[DependencyUri(disk, c.root, names[0])];
      assert d.root !in Deeper(store, d.root);
      i := |before|;
      if |names| > 1 {
        assert names[1..][0] == names[1];
        var j := DescendantsComplete(disk, store, d, |d.helm.dependencies|, names[1..]);
        LaterIndex(disk, store, c, n, names, j);
        i := |before| + 1 + j;
      } else {
        assert names == [names[0]];
      }
    }
  }

  lemma LaterIndex(disk: Disk, store: Store, c: Chart, n: nat, names: seq<string>, j: nat)
    requires Keyed(store) && 0 < n <= |c.helm.dependencies| && names != [] && c.helm.dependencies[n-1].name == names[0]
    requires DependencyUri(disk, c.root, names[0]) in store
    requires var d := store[DependencyUri(disk, c.root, names[0])];
             var below := Descendants(disk, store, d, |d.helm.dependencies|); j < |below| && below[j].scope == names[1..]
    ensures var list, i := Descendants(disk, store, c, n), |Descendants(disk, store, c, n - 1)| + 1 + j;
            i < |list| && list[i].scope == names
  {
    assert names == [names[0]] + names[1..];
  }

  lemma {:induction false} ScopeHead(disk: Disk, store: Store, c: Chart, n: nat, i: nat) returns (k: nat)
    requires Keyed(store) && n <= |c.helm.dependencies| && i < |Descendants(disk, store, c, n)|
    ensures k < n && Descendants(disk, store, c, n)[i].scope != [] &&
            Descendants(disk, store, c, n)[i].scope[0] == c.helm.dependencies[k].name
    decreases n
  {
    var before := Descendants(disk, store, c, n - 1);
    if i < |before| {
      k := ScopeHead(disk, store, c, n - 1, i);
    } else {
      k := n - 1;
    }
  }

  /** No descendant is listed twice. */
  lemma {:induction false} DescendantsDistinct(disk: Disk, store: Store, c: Chart, n: nat, i: nat, j: nat)
    requires Consistent(disk, store) && n <= |c.helm.dependencies| && c.root in store && store[c.root] == c
    requires i < j < |Descendants(disk, store, c, n)|
    ensures Descendants(disk, store, c, n)[i].scope != Descendants(disk, store, c, n)[j].scope
    decreases Deeper(store, c.root), n
  {
    var before := Descendants(disk, store, c, n - 1);
    var name := c.helm.dependencies[n-1].name;
    var u := DependencyUri(disk, c.root, name);
    assert DependenciesAgree(disk, store, c);
    if j < |before| {
      DescendantsDistinct(disk, store, c, n - 1, i, j);
    } else {
      var d := store[u];
      assert u in Deeper(store, c.root) && u !in Deeper(store, u);
      var below := Descendants(disk, store, d, |d.helm.dependencies|);
      if i < |before| {
        var k := ScopeHead(disk, store, c, n - 1, i);
      } else if i == |before| {
        DescendantsLead(disk, store, d, |d.helm.dependencies|, j - |before| - 1);
      } else {
        DescendantsDistinct(disk, store, d, |d.helm.dependencies|, i - |before| - 1, j - |before| - 1);
        assert below[i - |before| - 1].scope == ([name] + below[i - |before| - 1].scope)[1..];
        assert below[j - |before| - 1].scope == ([name] + below[j - |before| - 1].scope)[1..];
      }
    }
  }

  ghost predicate LeadsUp(disk: Disk, store: Store, root: Uri, e: Scoped)
    requires root in store
  {
    && e.scope == [] && e.subScope != [] && e.chart.root in store && e.chart == store[e.chart.root]
    && Follow(disk, store, e.chart.root, e.subScope) == Some(root)
  }

  lemma {:induction false} AncestorsLead(disk: Disk, store: Store, c: Chart, i: nat)
    requires Consistent(disk, store) && Shrinking(store) && c.root in store && store[c.root] == c
    requires i < |Ancestors(store, c)|
    ensures LeadsUp(disk, store, c.root, Ancestors(store, c)[i]) && |Ancestors(store, c)[i].subScope| == i + 1
    decreases |c.root|
  {
    var p := store[ParentIn(store, c).value];
    NameIsKnown(disk, store, c);
    if i > 0 {
      AncestorsLead(disk, store, p, i - 1);
      var above := Ancestors(store, p)[i-1].subScope;
      assert (above + [Name(c)])[..|above|] == above;
    }
  }

  lemma NameIsKnown(disk: Disk, store: Store, c: Chart)
    requires Consistent(disk, store) && c.root in store && store[c.root] == c && ParentIn(store, c).Some?
    ensures DependencyNamed(disk, store, ParentIn(store, c).value, Name(c)) == Some(c.root)
    ensures Follow(disk, store, ParentIn(store, c).value, [Name(c)]) == Some(c.root)
  {
    var p := ParentIn(store, c).value;
    ParentNames(disk, store, c.root);
    assert DependenciesAgree(disk, store, store[p]);
    assert [Name(c)][..0] == [];
  }

  /** Every ancestor is listed. */
  lemma {:induction false} AncestorsComplete(store: Store, c: Chart, v: Uri) returns (i: nat)
    requires Keyed(store) && Shrinking(store) && c.root in store && store[c.root] == c
    requires v in Chain(store, c.root) && v != c.root
    ensures i < |Ancestors(store, c)| && Ancestors(store, c)[i].chart.root == v
    decreases |c.root|
  {
    var p := store[ParentIn(store, c).value];
    if v == p.root {
      i := 0;
    } else {
      var j := AncestorsComplete(store, p, v);
      i := j + 1;
    }
  }

  // ----- the main result -----

  lemma EntryLeads(disk: Disk, store: Store, c: Chart, i: nat)
    requires Consistent(disk, store) && Shrinking(store) && c.root in store && store[c.root] == c
    requires 1 <= i < |ScopedValuesFiles(disk, store, c)|
    ensures var e := ScopedValuesFiles(disk, store, c)[i];
            var n := |Descendants(disk, store, c, |c.helm.dependencies|)|;
            if i <= n then LeadsDown(disk, store, c.root, e) else LeadsUp(disk, store, c.root, e)
  {
    var below := Descendants(disk, store, c, |c.helm.dependencies|);
    if i <= |below| {
      DescendantsLead(disk, store, c, |c.helm.dependencies|, i - 1);
    } else {
      AncestorsLead(disk, store, c, i - 1 - |below|);
    }
  }

  lemma DescendantsDiffer(disk: Disk, store: Store, c: Chart, i: nat, j: nat)
    requires Consistent(disk, store) && c.root in store && store[c.root] == c
    requires i < j < |Descendants(disk, store, c, |c.helm.dependencies|)|
    ensures var below := Descendants(disk, store, c, |c.helm.dependencies|); below[i].chart.root != below[j].chart.root
  {
    var n := |c.helm.dependencies|;
    var below := Descendants(disk, store, c, n);
    DescendantsLead(disk, store, c, n, i);
    DescendantsLead(disk, store, c, n, j);
    DescendantsDistinct(disk, store, c, n, i, j);
    if below[i].chart.root == below[j].chart.root {
      PathsUnique(disk, store, c.root, below[i].scope, below[j].scope);
    }
  }

  lemma EntriesDiffer(disk: Disk, store: Store, c: Chart, i: nat, j: nat)
    requires Consistent(disk, store) && Shrinking(store) && c.root in store && store[c.root] == c
    requires i < j < |ScopedValuesFiles(disk, store, c)|
    ensures ScopedValuesFiles(disk, store, c)[i].chart.root != ScopedValuesFiles(disk, store, c)[j].chart.root
  {
    var n := |Descendants(disk, store, c, |c.helm.dependencies|)|;
    if i > 0 && j <= n {
      DescendantsDiffer(disk, store, c, i - 1, j - 1);
    } else if i > n {
      AncestorsDiffer(store, c, i - 1 - n, j - 1 - n);
    } else {
      EntryLength(disk, store, c, j);
      if i > 0 {
        EntryLength(disk, store, c, i);
      }
    }
  }

  lemma {:induction false} AncestorShorter(store: Store, c: Chart, i: nat)
    requires Keyed(store) && Shrinking(store) && c.root in store && store[c.root] == c && i < |Ancestors(store, c)|
    ensures |Ancestors(store, c)[i].chart.root| < |c.root|
    decreases |c.root|
  {
    if i > 0 {
      AncestorShorter(store, store[ParentIn(store, c).value], i - 1);
    }
  }

  lemma {:induction false} AncestorsDiffer(store: Store, c: Chart, i: nat, j: nat)
    requires Keyed(store) && Shrinking(store) && c.root in store && store[c.root] == c
    requires i < j < |Ancestors(store, c)|
    ensures |Ancestors(store, c)[i].chart.root| > |Ancestors(store, c)[j].chart.root|
    decreases |c.root|
  {
    var p := store[ParentIn(store, c).value];
    if i > 0 {
      AncestorsDiffer(store, p, i - 1, j - 1);
    } else {
      AncestorShorter(store, p, j - 1);
    }
  }

  lemma EntryLength(disk: Disk, store: Store, c: Chart, i: nat)
    requires Consistent(disk, store) && Shrinking(store) && c.root in store && store[c.root] == c
    requires 1 <= i < |ScopedValuesFiles(disk, store, c)|
    ensures var e := ScopedValuesFiles(disk, store, c)[i];
            var n := |Descendants(disk, store, c, |c.helm.dependencies|)|;
            if i <= n then |e.chart.root| > |c.root| else |e.chart.root| < |c.root|
  {
    EntryLeads(disk, store, c, i);
    var e := ScopedValuesFiles(disk, store, c)[i];
    if e.scope != [] {
      FollowGrows(disk, store, c.root, e.scope);
    } else {
      FollowGrows(disk, store, e.chart.root, e.subScope);
    }
  }

  ghost predicate ListedOnce(list: seq<Scoped>, u: Uri) {
    && (exists i :: 0 <= i < |list| && list[i].chart.root == u)
    && forall i, j | 0 <= i < j < |list| :: !(list[i].chart.root == u && list[j].chart.root == u)
  }

  /** The list holds the chart itself, each stored descendant and each ancestor exactly once, and nothing else: the scope of a
      descendant leads down to it, and the sub-scope of an ancestor leads from it down to the chart. */
  lemma ScopedExactly(disk: Disk, store: Store, c: Chart)
    requires Consistent(disk, store) && Shrinking(store) && c.root in store && store[c.root] == c
    ensures var list := ScopedValuesFiles(disk, store, c);
            && list[0] == Scoped([], [], c)
            && (forall i | 1 <= i < |list| :: LeadsDown(disk, store, c.root, list[i]) || LeadsUp(disk, store, c.root, list[i]))
            && (forall names | Follow(disk, store, c.root, names).Some? :: ListedOnce(list, Follow(disk, store, c.root, names).value))
            && (forall v | v in Chain(store, c.root) :: ListedOnce(list, v))
  {
    var list, n := ScopedValuesFiles(disk, store, c), |c.helm.dependencies|;
    var below := Descendants(disk, store, c, n);
    forall i | 1 <= i < |list| ensures LeadsDown(disk, store, c.root, list[i]) || LeadsUp(disk, store, c.root, list[i]) {
      EntryLeads(disk, store, c, i);
    }
    forall i, j | 0 <= i < j < |list| ensures list[i].chart.root != list[j].chart.root {
      EntriesDiffer(disk, store, c, i, j);
    }
    forall names | Follow(disk, store, c.root, names).Some? ensures ListedOnce(list, Follow(disk, store, c.root, names).value) {
      var i := DescendantListed(disk, store, c, names);
    }
    forall v | v in Chain(store, c.root) ensures ListedOnce(list, v) {
      var i := AncestorListed(disk, store, c, v);
    }
  }

  lemma DescendantListed(disk: Disk, store: Store, c: Chart, names: seq<string>) returns (i: nat)
    requires Consistent(disk, store) && Shrinking(store) && c.root in store && store[c.root] == c
    requires Follow(disk, store, c.root, names).Some?
    ensures var list := ScopedValuesFiles(disk, store, c);
            i < |list| && list[i].chart.root == Follow(disk, store, c.root, names).value
  {
    i := 0;
    if names != [] {
      FollowHead(disk, store, c.root, names);
      var k := DescendantsComplete(disk, store, c, |c.helm.dependencies|, names);
      DescendantsLead(disk, store, c, |c.helm.dependencies|, k);
      i := k + 1;
    }
  }

  lemma AncestorListed(disk: Disk, store: Store, c: Chart, v: Uri) returns (i: nat)
    requires Consistent(disk, store) && Shrinking(store) && c.root in store && store[c.root] == c && v in Chain(store, c.root)
    ensures var list := ScopedValuesFiles(disk, store, c); i < |list| && list[i].chart.root == v
  {
    i := 0;
    if v != c.root {
      var k := AncestorsComplete(store, c, v);
      i := 1 + |Descendants(disk, store, c, |c.helm.dependencies|)| + k;
    }
  }
}
