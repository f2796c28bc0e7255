/** The schemas of all charts of a store together: no reference from one to another dangles. */
module SchemaSafety {
  import opened Options
  import opened Globals
  import Stores = ChartStores
  import Consistency = StoreConsistency
  import Paths = ChartPaths
  import Resolution = ChartResolution
  import Lists = ScopedValues
  import opened Schemas
  import opened SchemaGenerators
  import opened SchemaReferences
  import opened SchemaMeanings

  /** What the files of a chart hold, and where its generated schema goes. */
  datatype Contents = Contents(document: string, valuesFiles: seq<ValuesFile>, schemaFile: Option<Schema>)

  function ChartOf(contents: Stores.Uri -> Contents, c: Stores.Chart): Chart {
    var held := contents(c.root);
    Chart(Stores.Name(c), held.document, held.valuesFiles, held.schemaFile)
  }

  function ScopedOf(contents: Stores.Uri -> Contents, e: Lists.Scoped): RelatedChart {
    RelatedChart(ChartOf(contents, e.chart), e.scope, e.subScope)
  }

  function ScopedCharts(contents: Stores.Uri -> Contents, list: seq<Lists.Scoped>): (r: seq<RelatedChart>)
    ensures |r| == |list|
    ensures forall i | 0 <= i < |list| :: r[i] == ScopedOf(contents, list[i])
  {
    if list == [] then [] else [ScopedOf(contents, list[0])] + ScopedCharts(contents, list[1..])
  }

  function RelatedCharts(contents: Stores.Uri -> Contents, disk: Stores.Disk, store: Stores.Store, c: Stores.Chart): seq<RelatedChart>
    requires Lists.Keyed(store) && Paths.Shrinking(store) && c.root in store && store[c.root] == c
  {
    ScopedCharts(contents, Lists.ScopedValuesFiles(disk, store, c))
  }

  ghost predicate Sane(disk: Stores.Disk, store: Stores.Store) {
    Stores.Consistent(disk, store) && Paths.Shrinking(store)
  }

  /** Every store that was filled by adding charts that fit is such a store. */
  lemma FilledIsSane(disk: Stores.Disk, charts: seq<Stores.Chart>)
    requires forall k: nat | k < |charts| :: Stores.WellNamed(charts[k].helm) && Stores.ParentOnDisk(disk, charts[k])
    requires Consistency.AllFit(disk, charts, |charts|)
    ensures Sane(disk, Consistency.Filled(disk, charts, |charts|))
  {
    Consistency.FilledConsistent(disk, charts, |charts|);
    Paths.ConsistentShrinks(disk, Consistency.Filled(disk, charts, |charts|));
  }

  /** The list of related charts is one that a schema can be generated from. */
  lemma ChartComesFirst(contents: Stores.Uri -> Contents, disk: Stores.Disk, store: Stores.Store, c: Stores.Chart)
    requires Sane(disk, store) && c.root in store && store[c.root] == c
    ensures SelfFirst(ChartOf(contents, c), RelatedCharts(contents, disk, store, c))
  {
    var list := Lists.ScopedValuesFiles(disk, store, c);
    forall i | 1 <= i < |list| ensures !IsSelf(ScopedOf(contents, list[i])) {
      Lists.EntryLeads(disk, store, c, i);
    }
  }

  function SchemaFor(contents: Stores.Uri -> Contents, disk: Stores.Disk, store: Stores.Store, c: Stores.Chart): Schema
    requires Lists.Keyed(store) && Paths.Shrinking(store) && c.root in store && store[c.root] == c
    requires SelfFirst(ChartOf(contents, c), RelatedCharts(contents, disk, store, c))
  {
    Generated(ChartOf(contents, c), RelatedCharts(contents, disk, store, c))
  }

  predicate PlainName(name: string) {
    name != "" && name != GLOBAL && !IsRangeKey(name)
  }

  predicate PlainDependencies(c: Stores.Chart) {
    forall i | 0 <= i < |c.helm.dependencies| :: PlainName(c.helm.dependencies[i].name)
  }

  /** Charts are not named `global`, and dependencies have names that can be keys. */
  predicate PlainNames(store: Stores.Store) {
    forall u | u in store :: Stores.Name(store[u]) != GLOBAL && PlainDependencies(store[u])
  }

  lemma {:induction false} FollowedNamesPlain(disk: Stores.Disk, store: Stores.Store, u: Stores.Uri, names: seq<string>, i: nat)
    requires u in store && PlainNames(store) && Paths.Follow(disk, store, u, names).Some? && i < |names|
    ensures PlainName(names[i])
    decreases |names|
  {
    var init := names[..|names|-1];
    if i < |init| {
      FollowedNamesPlain(disk, store, u, init, i);
    } else {
      DependencyNamePlain(disk, store, Paths.Follow(disk, store, u, init).value, names[i]);
    }
  }

  lemma DependencyNamePlain(disk: Stores.Disk, store: Stores.Store, u: Stores.Uri, name: string)
    requires u in store && PlainNames(store) && Paths.DependencyNamed(disk, store, u, name).Some?
    ensures PlainName(name)
  {
    var ds := store[u].helm.dependencies;
    assert PlainDependencies(store[u]) && ds[Stores.IndexOf(ds, name)].name == name;
  }

  /** Ancestors have no `values.schema.json`. */
  predicate AncestorsUnschemed(contents: Stores.Uri -> Contents, store: Stores.Store, u: Stores.Uri)
    requires u in store && Paths.Shrinking(store)
  {
    forall v | v in Resolution.Chain(store, u) && v != u :: contents(v).schemaFile.None?
  }

  lemma {:induction false} AncestorInChain(disk: Stores.Disk, store: Stores.Store, c: Stores.Chart, i: nat)
    requires Sane(disk, store) && c.root in store && store[c.root] == c && i < |Lists.Ancestors(store, c)|
    ensures var v := Lists.Ancestors(store, c)[i].chart.root; v in Resolution.Chain(store, c.root) && |v| < |c.root|
    decreases |c.root|
  {
    var p := store[Stores.ParentIn(store, c).value];
    if i > 0 {
      AncestorInChain(disk, store, p, i - 1);
    }
  }

  lemma EntryReachable(contents: Stores.Uri -> Contents, disk: Stores.Disk, store: Stores.Store, c: Stores.Chart, i: nat)
    requires Sane(disk, store) && c.root in store && store[c.root] == c
    requires PlainNames(store) && AncestorsUnschemed(contents, store, c.root)
    requires 1 <= i < |Lists.ScopedValuesFiles(disk, store, c)|
    ensures var entry := Lists.ScopedValuesFiles(disk, store, c)[i];
            && entry.chart.root in store && store[entry.chart.root] == entry.chart && Reachable(ScopedOf(contents, entry))
            && (entry.subScope != [] ==> entry.chart.root in Resolution.Chain(store, c.root) && entry.chart.root != c.root)
  {
    var entry := Lists.ScopedValuesFiles(disk, store, c)[i];
    Lists.EntryLeads(disk, store, c, i);
    if entry.subScope != [] {
      forall k | 0 <= k < |entry.subScope| ensures PlainName(entry.subScope[k]) {
        FollowedNamesPlain(disk, store, entry.chart.root, entry.subScope, k);
      }
      AncestorInChain(disk, store, c, i - 1 - |Lists.Descendants(disk, store, c, |c.helm.dependencies|)|);
    }
  }

  /** Every reference that the schema of a chart makes to a related chart leads to a schema in the document generated for that
      chart, from that chart's own related charts. */
  lemma NoSchemaReferenceDangles(contents: Stores.Uri -> Contents, disk: Stores.Disk, store: Stores.Store, c: Stores.Chart,
                                 i: nat, e: Emission)
    requires Sane(disk, store) && c.root in store && store[c.root] == c
    requires PlainNames(store) && AncestorsUnschemed(contents, store, c.root)
    requires 1 <= i < |Lists.ScopedValuesFiles(disk, store, c)|
    requires e in Related(RelatedCharts(contents, disk, store, c)[i])
    ensures var other := Lists.ScopedValuesFiles(disk, store, c)[i].chart;
            && other.root in store && store[other.root] == other
            && SelfFirst(ChartOf(contents, other), RelatedCharts(contents, disk, store, other))
            && Leads(SchemaFor(contents, disk, store, other), e) && e.reference.document == contents(other.root).document
  {
    var entry := Lists.ScopedValuesFiles(disk, store, c)[i];
    EntryReachable(contents, disk, store, c, i);
    ChartComesFirst(contents, disk, store, entry.chart);
    NoDanglingReference(ScopedOf(contents, entry), RelatedCharts(contents, disk, store, entry.chart), e);
  }

  // ----- what the schema of a chart accepts -----

  /** The document of every stored chart is at hand under its name, and that of the chart asked under the empty name. */
  ghost predicate StoreHeld(docs: Documents, contents: Stores.Uri -> Contents, disk: Stores.Disk, store: Stores.Store, c: Stores.Chart)
    requires Sane(disk, store) && c.root in store && store[c.root] == c
  {
    && Holds(docs, "", ChartOf(contents, c), RelatedCharts(contents, disk, store, c))
    && forall u | u in store ::
         Holds(docs, contents(u).document, ChartOf(contents, store[u]), RelatedCharts(contents, disk, store, store[u]))
  }

  /** The values at the path that leads down to a stored chart fit that chart. */
  predicate FitsBelow(within: Follow, contents: Stores.Uri -> Contents, store: Stores.Store, names: seq<string>, u: Stores.Uri,
                      values: Values)
    requires u in store
  {
    && (KeyLookup(values, names).Some? ==> FitsChart(within, KeyLookup(values, names).value, ChartOf(contents, store[u])))
    && GlobalsFit(values, contents(u).valuesFiles)
  }

  /** The values fit the tables that a stored chart above has for them. */
  predicate FitsAbove(contents: Stores.Uri -> Contents, store: Stores.Store, u: Stores.Uri, names: seq<string>, values: Values)
    requires u in store
  {
    && FitsAncestor(Table(values), RelatedChart(ChartOf(contents, store[u]), [], names))
    && GlobalsFit(values, contents(u).valuesFiles)
  }

  ghost predicate AllBelowFit(within: Follow, contents: Stores.Uri -> Contents, disk: Stores.Disk, store: Stores.Store,
                              root: Stores.Uri, values: Values)
    requires root in store
  {
    forall names | names != [] && Paths.Follow(disk, store, root, names).Some? ::
      FitsBelow(within, contents, store, names, Paths.Follow(disk, store, root, names).value, values)
  }

  ghost predicate AllAboveFit(contents: Stores.Uri -> Contents, disk: Stores.Disk, store: Stores.Store, root: Stores.Uri, values: Values)
    requires root in store && Paths.Shrinking(store)
  {
    forall v, names | v in Resolution.Chain(store, root) && v in store && v != root && Paths.Follow(disk, store, v, names) == Some(root) ::
      FitsAbove(contents, store, v, names, values)
  }

  /** The schema of a chart accepts exactly the tables that fit the chart, that at the path of each descendant fit that one, that
      fit what each ancestor has for the chart, and whose global values fit those of them all. */
  lemma SchemaAcceptsExactly(docs: Documents, within: Follow, contents: Stores.Uri -> Contents, disk: Stores.Disk, store: Stores.Store,
                             c: Stores.Chart, value: Value)
    requires Sane(disk, store) && c.root in store && store[c.root] == c
    requires PlainNames(store) && AncestorsUnschemed(contents, store, c.root) && StoreHeld(docs, contents, disk, store, c)
    ensures Accepts(Through(docs, within), SchemaFor(contents, disk, store, c), value) <==>
            && value.Table? && FitsChart(within, value, ChartOf(contents, c)) && GlobalsFit(value.entries, contents(c.root).valuesFiles)
            && AllBelowFit(within, contents, disk, store, c.root, value.entries)
            && AllAboveFit(contents, disk, store, c.root, value.entries)
  {
    var scoped := RelatedCharts(contents, disk, store, c);
    RelatedHeld(docs, contents, disk, store, c);
    DocumentAcceptsExactly(docs, within, ChartOf(contents, c), scoped, value);
    if value.Table? {
      if EntriesFit(within, scoped, value.entries) {
        AllFitFromEntries(within, contents, disk, store, c, value.entries);
      }
      if AllBelowFit(within, contents, disk, store, c.root, value.entries) && AllAboveFit(contents, disk, store, c.root, value.entries) {
        EntriesFromAllFit(within, contents, disk, store, c, value.entries);
      }
    }
  }

  lemma RelatedHeld(docs: Documents, contents: Stores.Uri -> Contents, disk: Stores.Disk, store: Stores.Store, c: Stores.Chart)
    requires Sane(disk, store) && c.root in store && store[c.root] == c
    requires PlainNames(store) && AncestorsUnschemed(contents, store, c.root) && StoreHeld(docs, contents, disk, store, c)
    ensures AllHeld(docs, ChartOf(contents, c), RelatedCharts(contents, disk, store, c))
  {
    var scoped := RelatedCharts(contents, disk, store, c);
    forall i | 1 <= i < |scoped|
      ensures Reachable(scoped[i]) && exists list :: Holds(docs, scoped[i].chart.document, scoped[i].chart, list)
    {
      EntryReachable(contents, disk, store, c, i);
      var other := Lists.ScopedValuesFiles(disk, store, c)[i].chart;
      assert Holds(docs, contents(other.root).document, ChartOf(contents, other), RelatedCharts(contents, disk, store, other));
    }
  }

  predicate EntriesFit(within: Follow, scoped: seq<RelatedChart>, values: Values) {
    forall i | 1 <= i < |scoped| :: FitsAtScope(within, values, scoped[i])
  }

  lemma AllFitFromEntries(within: Follow, contents: Stores.Uri -> Contents, disk: Stores.Disk, store: Stores.Store, c: Stores.Chart,
                   values: Values)
    requires Sane(disk, store) && c.root in store && store[c.root] == c
    requires EntriesFit(within, RelatedCharts(contents, disk, store, c), values)
    ensures AllBelowFit(within, contents, disk, store, c.root, values) && AllAboveFit(contents, disk, store, c.root, values)
  {
    forall names | names != [] && Paths.Follow(disk, store, c.root, names).Some?
      ensures FitsBelow(within, contents, store, names, Paths.Follow(disk, store, c.root, names).value, values)
    {
      var i := BelowListed(contents, disk, store, c, names);
    }
    forall v, names | v in Resolution.Chain(store, c.root) && v in store && v != c.root
                      && Paths.Follow(disk, store, v, names) == Some(c.root)
      ensures FitsAbove(contents, store, v, names, values)
    {
      var i := AboveListed(contents, disk, store, c, v, names);
    }
  }

  lemma EntriesFromAllFit(within: Follow, contents: Stores.Uri -> Contents, disk: Stores.Disk, store: Stores.Store, c: Stores.Chart,
                   values: Values)
    requires Sane(disk, store) && c.root in store && store[c.root] == c
    requires PlainNames(store) && AncestorsUnschemed(contents, store, c.root)
    requires AllBelowFit(within, contents, disk, store, c.root, values) && AllAboveFit(contents, disk, store, c.root, values)
    ensures EntriesFit(within, RelatedCharts(contents, disk, store, c), values)
  {
    var scoped := RelatedCharts(contents, disk, store, c);
    forall i | 1 <= i < |scoped| ensures FitsAtScope(within, values, scoped[i]) {
      EntryReachable(contents, disk, store, c, i);
      Lists.EntryLeads(disk, store, c, i);
    }
  }

  lemma BelowListed(contents: Stores.Uri -> Contents, disk: Stores.Disk, store: Stores.Store, c: Stores.Chart, names: seq<string>)
    returns (i: nat)
    requires Sane(disk, store) && c.root in store && store[c.root] == c
    requires names != [] && Paths.Follow(disk, store, c.root, names).Some?
    ensures var scoped := RelatedCharts(contents, disk, store, c);
            1 <= i < |scoped| &&
            scoped[i] == RelatedChart(ChartOf(contents, store[Paths.Follow(disk, store, c.root, names).value]), names, [])
  {
    Paths.FollowGrows(disk, store, c.root, names);
    i := Lists.DescendantListed(disk, store, c, names);
    Lists.EntryLeads(disk, store, c, i);
    Lists.EntryLength(disk, store, c, i);
    Paths.PathsUnique(disk, store, c.root, names, Lists.ScopedValuesFiles(disk, store, c)[i].scope);
  }

  lemma AboveListed(contents: Stores.Uri -> Contents, disk: Stores.Disk, store: Stores.Store, c: Stores.Chart, v: Stores.Uri,
                    names: seq<string>)
    returns (i: nat)
    requires Sane(disk, store) && c.root in store && store[c.root] == c
    requires v in Resolution.Chain(store, c.root) && v in store && v != c.root && Paths.Follow(disk, store, v, names) == Some(c.root)
    ensures var scoped := RelatedCharts(contents, disk, store, c);
            1 <= i < |scoped| && scoped[i] == RelatedChart(ChartOf(contents, store[v]), [], names) && names != []
  {
    Paths.FollowGrows(disk, store, v, names);
    i := Lists.AncestorListed(disk, store, c, v);
    Lists.EntryLeads(disk, store, c, i);
    Lists.EntryLength(disk, store, c, i);
    Paths.PathsUnique(disk, store, v, names, Lists.ScopedValuesFiles(disk, store, c)[i].subScope);
  }
}
