/** Which values the schema document of a chart accepts, its references followed into the documents of related charts. */
module SchemaMeanings {
  import opened Options
  import opened Globals
  import opened JsonPointers
  import opened Schemas
  import opened SchemaGenerators
  import opened SchemaReferences

  /** The documents by name; the empty name is that of the document which is being used. */
  type Documents = string -> Option<Schema>

  /** A reference accepts what the schema accepts that it leads to, and nothing if it leads nowhere. `within` says what the
      references inside that schema accept: a `values.schema.json` may hold any. */
  function Through(docs: Documents, within: Follow): Follow {
    (reference: Reference, value: Value) => LedAccepts(docs, within, reference, value)
  }

  predicate LedAccepts(docs: Documents, within: Follow, reference: Reference, value: Value) {
    && reference.Reference? && docs(reference.document).Some?
    && Resolve(docs(reference.document).value, reference.pointer).Some?
    && Accepts(within, Resolve(docs(reference.document).value, reference.pointer).value, value)
  }

  // ----- what the files of a chart ask of values -----

  /** Shaped like a values file, its global values left aside. */
  predicate FitsFile(value: Value, file: ValuesFile) {
    && value.Table?
    && forall key | key in value.entries && key in file.values ::
         (key == GLOBAL && file.values[key].Table?) || Shaped(value.entries[key], file.values[key])
  }

  predicate FitsFiles(value: Value, files: seq<ValuesFile>) {
    forall file | file in files :: FitsFile(value, file)
  }

  /** Shaped like the table of global values in each values file that has one. */
  predicate FitsGlobals(value: Value, files: seq<ValuesFile>) {
    forall file | file in files && GLOBAL in file.values && file.values[GLOBAL].Table? :: Shaped(value, file.values[GLOBAL])
  }

  /** What a chart asks of its own values: its `values.schema.json` accepts them, and they fit each of its values files. A chart
      that is itself named `global` and has global values only asks what those ask. */
  predicate FitsChart(within: Follow, value: Value, chart: Chart) {
    if chart.name == GLOBAL && HasGlobal(chart.valuesFiles) then FitsGlobals(value, chart.valuesFiles)
    else
      && (chart.schemaFile.Some? ==> Accepts(within, chart.schemaFile.value, value))
      && FitsFiles(value, chart.valuesFiles)
  }

  /** Shaped like the table for a dependency in each of an ancestor's values files that has one. */
  predicate FitsAncestor(value: Value, s: RelatedChart) {
    forall file | file in s.chart.valuesFiles && HoldsTable(file.values, s.subScope) ::
      Shaped(value, KeyLookup(file.values, s.subScope).value)
  }

  predicate HoldsTable(values: Values, path: seq<string>) {
    KeyLookup(values, path).Some? && KeyLookup(values, path).value.Table?
  }

  predicate FitsRelated(within: Follow, value: Value, s: RelatedChart) {
    if s.subScope == [] then FitsChart(within, value, s.chart) else FitsAncestor(value, s)
  }

  /** The values under `global`, if there are any, fit the global values of the files. */
  predicate GlobalsFit(values: Values, files: seq<ValuesFile>) {
    GLOBAL in values ==> FitsGlobals(values[GLOBAL], files)
  }

  /** Whatever the values hold at the scope of a related chart fits it, and so do the global values. */
  predicate FitsAtScope(within: Follow, values: Values, s: RelatedChart) {
    && (KeyLookup(values, s.scope).Some? ==> FitsRelated(within, KeyLookup(values, s.scope).value, s))
    && GlobalsFit(values, s.chart.valuesFiles)
  }

  // ----- nested references -----

  lemma {:induction false} NestAccepts(follow: Follow, schema: Schema, scopes: seq<string>, values: Values)
    ensures Accepts(follow, Nest(schema, scopes), Table(values)) <==>
            (KeyLookup(values, scopes).Some? ==> Accepts(follow, schema, KeyLookup(values, scopes).value))
    decreases |scopes|
  {
    if scopes != [] && scopes[0] in values {
      var inner, rest := Nest(schema, scopes[1..]), scopes[1..];
      assert Accepts(follow, Nest(schema, scopes), Table(values)) <==> Accepts(follow, inner, values[scopes[0]]);
      if values[scopes[0]].Table? {
        NestAccepts(follow, schema, rest, values[scopes[0]].entries);
        assert rest == [] ==> KeyLookup(values[scopes[0]].entries, rest) == Some(values[scopes[0]]);
      }
    }
  }

  predicate EmissionHolds(follow: Follow, e: Emission, values: Values) {
    KeyLookup(values, e.scopes).Some? ==> follow(e.reference, KeyLookup(values, e.scopes).value)
  }

  lemma EmissionAccepts(follow: Follow, e: Emission, values: Values)
    requires e.reference.Reference?
    ensures Accepts(follow, Emitted(e), Table(values)) <==> EmissionHolds(follow, e, values)
  {
    NestAccepts(follow, ANYTHING.(ref := e.reference), e.scopes, values);
  }

  // ----- what the definitions accept -----

  predicate AllAccept(follow: Follow, schemas: seq<Schema>, value: Value) {
    forall schema | schema in schemas :: Accepts(follow, schema, value)
  }

  lemma JoinedAccepts(follow: Follow, schemas: seq<Schema>, value: Value)
    ensures Accepts(follow, ANYTHING.(allOf := schemas), value) <==> AllAccept(follow, schemas, value)
  {
    var joined := ANYTHING.(allOf := schemas);
    assert joined.allOf == schemas;
  }

  lemma BothAccept(follow: Follow, first: seq<Schema>, second: seq<Schema>, value: Value)
    ensures AllAccept(follow, first + second, value) <==> AllAccept(follow, first, value) && AllAccept(follow, second, value)
  {
    if AllAccept(follow, first + second, value) {
      forall schema | schema in first || schema in second ensures Accepts(follow, schema, value) {
        assert schema in first + second;
      }
    }
  }

  lemma FileAccepts(follow: Follow, chart: Chart, file: ValuesFile, value: Value)
    ensures Accepts(follow, FileSchema(chart, file), value) <==> FitsFile(value, file)
  {
    var local := LocalValues(file.values);
    AcceptsExactlyShaped(follow, value, Table(local), DescriptionFor(chart, file), Some(DescriptionFor(chart, file)));
    if value.Table? {
      assert Shaped(value, Table(local)) <==>
             forall key | key in value.entries && key in local :: Shaped(value.entries[key], local[key]);
    }
  }

  lemma GlobalFileAccepts(follow: Follow, chart: Chart, file: ValuesFile, value: Value)
    ensures AllAccept(follow, GlobalSchema(chart, file), value) <==>
            (GLOBAL in file.values && file.values[GLOBAL].Table? ==> Shaped(value, file.values[GLOBAL]))
  {
    if GlobalTable(file.values).Some? {
      var description := GlobalDescriptionFor(chart, file);
      AcceptsExactlyShaped(follow, value, file.values[GLOBAL], description, Some(description));
      var schema := DocumentOf(GlobalTable(file.values).value, description);
      assert GlobalSchema(chart, file) == [schema] && schema in [schema];
      assert Table(GlobalTable(file.values).value) == file.values[GLOBAL];
    }
  }

  lemma GlobalsFromFiles(follow: Follow, chart: Chart, value: Value)
    ensures AllAccept(follow, AllGlobalSchemas(chart), value) <==>
            forall file | file in chart.valuesFiles :: AllAccept(follow, GlobalSchema(chart, file), value)
  {
    var n := |chart.valuesFiles|;
    forall i: nat | i < n
      ensures forall schema | schema in GlobalSchema(chart, chart.valuesFiles[i]) :: schema in AllGlobalSchemas(chart)
    {
      GlobalsComplete(chart, n, i);
    }
    if !AllAccept(follow, AllGlobalSchemas(chart), value) {
      var schema :| schema in AllGlobalSchemas(chart) && !Accepts(follow, schema, value);
      var i := GlobalsSound(chart, n, schema);
      assert !AllAccept(follow, GlobalSchema(chart, chart.valuesFiles[i]), value);
    }
  }

  lemma AllGlobalsAccept(follow: Follow, chart: Chart, value: Value)
    ensures Accepts(follow, ANYTHING.(allOf := AllGlobalSchemas(chart)), value) <==> FitsGlobals(value, chart.valuesFiles)
  {
    JoinedAccepts(follow, AllGlobalSchemas(chart), value);
    GlobalsFromFiles(follow, chart, value);
    forall file | file in chart.valuesFiles
      ensures AllAccept(follow, GlobalSchema(chart, file), value) <==>
              (GLOBAL in file.values && file.values[GLOBAL].Table? ==> Shaped(value, file.values[GLOBAL]))
    {
      GlobalFileAccepts(follow, chart, file, value);
    }
  }

  lemma FilesAccept(follow: Follow, chart: Chart, value: Value)
    ensures AllAccept(follow, FileSchemas(chart, |chart.valuesFiles|), value) <==> FitsFiles(value, chart.valuesFiles)
  {
    var files := chart.valuesFiles;
    var schemas := FileSchemas(chart, |files|);
    forall file | file in files ensures Accepts(follow, FileSchema(chart, file), value) <==> FitsFile(value, file) {
      FileAccepts(follow, chart, file, value);
    }
    forall k | 0 <= k < |files| ensures FileSchema(chart, files[k]) in schemas {
      assert schemas[k] == FileSchema(chart, files[k]);
    }
  }

  lemma ValuesAccept(follow: Follow, chart: Chart, value: Value)
    ensures Accepts(follow, ANYTHING.(allOf := ValuesSchemas(chart)), value) <==>
            (chart.schemaFile.Some? ==> Accepts(follow, chart.schemaFile.value, value)) && FitsFiles(value, chart.valuesFiles)
  {
    var first := if chart.schemaFile.Some? then [chart.schemaFile.value] else [];
    JoinedAccepts(follow, ValuesSchemas(chart), value);
    BothAccept(follow, first, FileSchemas(chart, |chart.valuesFiles|), value);
    FilesAccept(follow, chart, value);
    SchemaFileAccepts(follow, chart.schemaFile, value);
  }

  lemma SchemaFileAccepts(follow: Follow, schemaFile: Option<Schema>, value: Value)
    ensures AllAccept(follow, if schemaFile.Some? then [schemaFile.value] else [], value) <==>
            (schemaFile.Some? ==> Accepts(follow, schemaFile.value, value))
  {
    assert schemaFile.Some? ==> schemaFile.value in [schemaFile.value];
  }

  /** The definition of a chart accepts what fits the chart. */
  lemma DefinitionAccepts(within: Follow, chart: Chart, value: Value)
    ensures Accepts(within, ANYTHING.(allOf := OwnSchemas(chart)), value) <==> FitsChart(within, value, chart)
  {
    GlobalsExactly(chart);
    if chart.name == GLOBAL && HasGlobal(chart.valuesFiles) {
      AllGlobalsAccept(within, chart, value);
    } else {
      ValuesAccept(within, chart, value);
    }
  }

  // ----- what the references accept -----

  /** The document of a chart is at hand under the name given. */
  predicate Holds(docs: Documents, name: string, chart: Chart, scoped: seq<RelatedChart>) {
    SelfFirst(chart, scoped) && docs(name) == Some(Generated(chart, scoped))
  }

  lemma DefinitionLed(docs: Documents, within: Follow, name: string, chart: Chart, scoped: seq<RelatedChart>, value: Value)
    requires Holds(docs, name, chart, scoped)
    ensures LedAccepts(docs, within, Reference(name, "/$defs/" + Escape(chart.name)), value) <==> FitsChart(within, value, chart)
  {
    OwnDefinitionKept(chart);
    DefinedAs(Generated(chart, scoped), chart.name);
    assert "/$defs/" + Escape(chart.name) + "" == "/$defs/" + Escape(chart.name);
    DefinitionAccepts(within, chart, value);
  }

  lemma GlobalLed(docs: Documents, within: Follow, name: string, chart: Chart, scoped: seq<RelatedChart>, value: Value)
    requires Holds(docs, name, chart, scoped) && AllGlobalSchemas(chart) != []
    ensures LedAccepts(docs, within, Reference(name, "/$defs/global"), value) <==> FitsGlobals(value, chart.valuesFiles)
  {
    GlobalDefinitionResolves(Generated(chart, scoped), ANYTHING.(allOf := AllGlobalSchemas(chart)));
    AllGlobalsAccept(within, chart, value);
  }

  lemma FileLed(docs: Documents, within: Follow, s: RelatedChart, scoped: seq<RelatedChart>, i: nat, value: Value)
    requires Holds(docs, s.chart.document, s.chart, scoped) && s.subScope != [] && Reachable(s)
    requires i < |s.chart.valuesFiles| && HasTable(s, i)
    ensures LedAccepts(docs, within, ReferenceTo(s.chart, FilePointer(s, i)), value) <==>
            Shaped(value, Table(GetSubValues(s.chart.valuesFiles[i].values, s.subScope).value))
  {
    var file := s.chart.valuesFiles[i];
    var table := Table(GetSubValues(file.values, s.subScope).value);
    AncestorReference(s, scoped, i);
    AcceptsExactlyShaped(within, value, table, DescriptionFor(s.chart, file), Some(DescriptionFor(s.chart, file)));
  }

  /** A chart whose references do not dangle where it is an ancestor. */
  predicate Reachable(s: RelatedChart) {
    s.subScope != [] ==>
      s.chart.name != GLOBAL && s.chart.schemaFile.None? && PlainScope(s.subScope) && s.subScope[0] != GLOBAL
  }

  // ----- what a document accepts -----

  predicate AllHold(follow: Follow, es: seq<Emission>, values: Values) {
    forall e | e in es :: EmissionHolds(follow, e, values)
  }

  lemma {:induction false} EmittedAt(es: seq<Emission>)
    ensures |AllEmitted(es)| == |es| && forall i | 0 <= i < |es| :: AllEmitted(es)[i] == Emitted(es[i])
  {
    if es != [] {
      EmittedAt(es[..|es|-1]);
    }
  }

  lemma EmittedAccept(follow: Follow, es: seq<Emission>, values: Values)
    requires forall e | e in es :: e.reference.Reference?
    ensures AllAccept(follow, AllEmitted(es), Table(values)) <==> AllHold(follow, es, values)
  {
    EmittedAt(es);
    forall e | e in es
      ensures Accepts(follow, Emitted(e), Table(values)) <==> EmissionHolds(follow, e, values)
    {
      EmissionAccepts(follow, e, values);
    }
    forall i | 0 <= i < |es| ensures Emitted(es[i]) in AllEmitted(es) {
      assert AllEmitted(es)[i] == Emitted(es[i]);
    }
  }

  lemma HoldBoth(follow: Follow, es: seq<Emission>, fs: seq<Emission>, values: Values)
    ensures AllHold(follow, es + fs, values) <==> AllHold(follow, es, values) && AllHold(follow, fs, values)
  {
    if AllHold(follow, es + fs, values) {
      forall e | e in es || e in fs ensures EmissionHolds(follow, e, values) {
        assert e in es + fs;
      }
    }
  }

  lemma OneHolds(follow: Follow, e: Emission, values: Values)
    ensures AllHold(follow, [e], values) <==> EmissionHolds(follow, e, values)
  {
    assert e in [e];
  }

  /** What some charts add, one after the other. */
  function Gathered(added: RelatedChart -> seq<Emission>, scoped: seq<RelatedChart>, n: nat): seq<Emission>
    requires 1 <= n <= |scoped|
  {
    if n == 1 then [] else Gathered(added, scoped, n - 1) + added(scoped[n-1])
  }

  lemma {:induction false} GatheredHold(follow: Follow, added: RelatedChart -> seq<Emission>, scoped: seq<RelatedChart>, n: nat,
                                        values: Values)
    requires 1 <= n <= |scoped|
    ensures AllHold(follow, Gathered(added, scoped, n), values) <==>
            forall i | 1 <= i < n :: AllHold(follow, added(scoped[i]), values)
    decreases n
  {
    if n > 1 {
      GatheredHold(follow, added, scoped, n - 1, values);
      HoldBoth(follow, Gathered(added, scoped, n - 1), added(scoped[n-1]), values);
    }
  }

  lemma {:induction false} RelatedGathered(scoped: seq<RelatedChart>, n: nat)
    requires 1 <= n <= |scoped|
    ensures AllRelated(scoped, n) == Gathered(Related, scoped, n)
    decreases n
  {
    if n > 1 {
      RelatedGathered(scoped, n - 1);
    }
  }

  lemma GlobalReferencesHold(docs: Documents, within: Follow, chart: Chart, scoped: seq<RelatedChart>, values: Values)
    requires Holds(docs, chart.document, chart, scoped)
    ensures AllHold(Through(docs, within), GlobalReferences(chart), values) <==>
            GlobalsFit(values, chart.valuesFiles)
  {
    GlobalsExactly(chart);
    if HasGlobal(chart.valuesFiles) {
      var e := Emission(Reference(chart.document, "/$defs/global"), [GLOBAL]);
      OneHolds(Through(docs, within), e, values);
      if KeyLookup(values, [GLOBAL]).Some? {
        GlobalLed(docs, within, chart.document, chart, scoped, KeyLookup(values, [GLOBAL]).value);
      }
    } else {
      NoGlobals(chart.valuesFiles);
    }
  }

  lemma NoGlobals(files: seq<ValuesFile>)
    requires !HasGlobal(files)
    ensures forall value :: FitsGlobals(value, files)
  {
    forall file | file in files && GLOBAL in file.values ensures !file.values[GLOBAL].Table? {
      var i :| 0 <= i < |files| && files[i] == file;
      assert GlobalTable(files[i].values).None?;
    }
  }

  lemma ReferencesHold(docs: Documents, within: Follow, s: RelatedChart, scoped: seq<RelatedChart>, values: Values)
    requires Holds(docs, s.chart.document, s.chart, scoped) && Reachable(s)
    ensures AllHold(Through(docs, within), References(s, Pointers(s), |Pointers(s)|), values) <==>
            (KeyLookup(values, s.scope).Some? ==> FitsRelated(within, KeyLookup(values, s.scope).value, s))
  {
    if KeyLookup(values, s.scope).Some? {
      var value := KeyLookup(values, s.scope).value;
      ReferencesAre(Through(docs, within), s, values);
      if s.subScope == [] {
        DefinitionReferenceHolds(docs, within, s, scoped, value);
      } else {
        FileReferencesHold(docs, within, s, scoped, value);
      }
    }
  }

  lemma DefinitionReferenceHolds(docs: Documents, within: Follow, s: RelatedChart, scoped: seq<RelatedChart>, value: Value)
    requires Holds(docs, s.chart.document, s.chart, scoped) && s.subScope == []
    ensures PointersAccept(Through(docs, within), s, value) <==> FitsChart(within, value, s.chart)
  {
    assert Pointers(s) == [""] && "" in [""];
    assert "/$defs/" + Escape(s.chart.name) + "" == "/$defs/" + Escape(s.chart.name);
    DefinitionLed(docs, within, s.chart.document, s.chart, scoped, value);
  }

  predicate PointersAccept(follow: Follow, s: RelatedChart, value: Value) {
    forall p | p in Pointers(s) :: follow(ReferenceTo(s.chart, p), value)
  }

  lemma ReferencesAre(follow: Follow, s: RelatedChart, values: Values)
    requires KeyLookup(values, s.scope).Some?
    ensures AllHold(follow, References(s, Pointers(s), |Pointers(s)|), values) <==>
            PointersAccept(follow, s, KeyLookup(values, s.scope).value)
  {
    var pointers := Pointers(s);
    var references := References(s, pointers, |pointers|);
    if AllHold(follow, references, values) {
      forall p | p in pointers ensures follow(ReferenceTo(s.chart, p), KeyLookup(values, s.scope).value) {
        var k :| 0 <= k < |pointers| && pointers[k] == p;
        assert references[k] in references;
      }
    }
  }

  predicate AllFilesAccept(follow: Follow, s: RelatedChart, value: Value) {
    forall i: nat | i < |s.chart.valuesFiles| && HasTable(s, i) :: follow(ReferenceTo(s.chart, FilePointer(s, i)), value)
  }

  lemma FilePointersAccept(follow: Follow, s: RelatedChart, value: Value)
    requires s.subScope != []
    ensures PointersAccept(follow, s, value) <==> AllFilesAccept(follow, s, value)
  {
    if PointersAccept(follow, s, value) {
      forall i: nat | i < |s.chart.valuesFiles| && HasTable(s, i) ensures FilePointer(s, i) in Pointers(s) {
        PointersExactly(s, FilePointer(s, i));
      }
    } else {
      var p :| p in Pointers(s) && !follow(ReferenceTo(s.chart, p), value);
      PointersExactly(s, p);
    }
  }

  predicate FitsTable(value: Value, s: RelatedChart, i: nat)
    requires i < |s.chart.valuesFiles| && HasTable(s, i)
  {
    Shaped(value, Table(GetSubValues(s.chart.valuesFiles[i].values, s.subScope).value))
  }

  predicate AllTablesFit(value: Value, s: RelatedChart) {
    forall i: nat | i < |s.chart.valuesFiles| && HasTable(s, i) :: FitsTable(value, s, i)
  }

  lemma TableFound(values: Values, path: seq<string>)
    requires path != [] && PlainScope(path)
    ensures GetSubValues(values, path).Some? <==> HoldsTable(values, path)
    ensures HoldsTable(values, path) ==> KeyLookup(values, path).value == Table(GetSubValues(values, path).value)
  {
    PlainLookup(values, path);
  }

  lemma AncestorByFile(value: Value, s: RelatedChart)
    requires s.subScope != [] && PlainScope(s.subScope)
    ensures FitsAncestor(value, s) <==> AllTablesFit(value, s)
  {
    forall file | file in s.chart.valuesFiles
      ensures GetSubValues(file.values, s.subScope).Some? <==> HoldsTable(file.values, s.subScope)
      ensures HoldsTable(file.values, s.subScope) ==>
                KeyLookup(file.values, s.subScope).value == Table(GetSubValues(file.values, s.subScope).value)
    {
      TableFound(file.values, s.subScope);
    }
    if !FitsAncestor(value, s) {
      var file :| file in s.chart.valuesFiles && HoldsTable(file.values, s.subScope) &&
                  !Shaped(value, KeyLookup(file.values, s.subScope).value);
      var i: nat :| i < |s.chart.valuesFiles| && s.chart.valuesFiles[i] == file;
      assert HasTable(s, i) && !FitsTable(value, s, i);
    }
  }

  lemma TablesAccepted(docs: Documents, within: Follow, s: RelatedChart, scoped: seq<RelatedChart>, value: Value)
    requires Holds(docs, s.chart.document, s.chart, scoped) && Reachable(s) && s.subScope != []
    ensures AllFilesAccept(Through(docs, within), s, value) <==> AllTablesFit(value, s)
  {
    forall i: nat | i < |s.chart.valuesFiles| && HasTable(s, i)
      ensures LedAccepts(docs, within, ReferenceTo(s.chart, FilePointer(s, i)), value) <==> FitsTable(value, s, i)
    {
      FileLed(docs, within, s, scoped, i, value);
    }
  }

  lemma FileReferencesHold(docs: Documents, within: Follow, s: RelatedChart, scoped: seq<RelatedChart>, value: Value)
    requires Holds(docs, s.chart.document, s.chart, scoped) && Reachable(s) && s.subScope != []
    ensures PointersAccept(Through(docs, within), s, value) <==> FitsAncestor(value, s)
  {
    FilePointersAccept(Through(docs, within), s, value);
    TablesAccepted(docs, within, s, scoped, value);
    AncestorByFile(value, s);
  }

  lemma RelatedHold(docs: Documents, within: Follow, s: RelatedChart, scoped: seq<RelatedChart>, values: Values)
    requires Holds(docs, s.chart.document, s.chart, scoped) && Reachable(s)
    ensures AllHold(Through(docs, within), Related(s), values) <==> FitsAtScope(within, values, s)
  {
    HoldBoth(Through(docs, within), References(s, Pointers(s), |Pointers(s)|), GlobalReferences(s.chart), values);
    ReferencesHold(docs, within, s, scoped, values);
    GlobalReferencesHold(docs, within, s.chart, scoped, values);
  }

  lemma OwnHolds(docs: Documents, within: Follow, chart: Chart, scoped: seq<RelatedChart>, values: Values)
    requires Holds(docs, "", chart, scoped)
    ensures AllHold(Through(docs, within), [OwnEmission(chart.name, [])], values) <==> FitsChart(within, Table(values), chart)
  {
    OneHolds(Through(docs, within), OwnEmission(chart.name, []), values);
    DefinitionLed(docs, within, "", chart, scoped, Table(values));
  }

  lemma OwnGlobal()
    ensures OwnEmission(GLOBAL, [GLOBAL]) == Emission(Reference("", "/$defs/global"), [GLOBAL])
  {
    OwnPointer(GLOBAL);
    GlobalPointer();
  }

  lemma OwnGlobalsHold(docs: Documents, within: Follow, chart: Chart, scoped: seq<RelatedChart>, values: Values)
    requires Holds(docs, "", chart, scoped)
    ensures AllHold(Through(docs, within), GlobalEmission(AllGlobalSchemas(chart)), values) <==> GlobalsFit(values, chart.valuesFiles)
  {
    GlobalsExactly(chart);
    if AllGlobalSchemas(chart) != [] {
      OwnGlobal();
      OneHolds(Through(docs, within), Emission(Reference("", "/$defs/global"), [GLOBAL]), values);
      if GLOBAL in values {
        GlobalLed(docs, within, "", chart, scoped, values[GLOBAL]);
      }
    } else {
      NoGlobals(chart.valuesFiles);
    }
  }

  /** The documents of all the charts in a list are at hand, each generated from a list of its own. */
  ghost predicate AllHeld(docs: Documents, chart: Chart, scoped: seq<RelatedChart>) {
    && Holds(docs, "", chart, scoped)
    && forall i | 1 <= i < |scoped| ::
         Reachable(scoped[i]) && exists list :: Holds(docs, scoped[i].chart.document, scoped[i].chart, list)
  }

  /** The schema document of a chart accepts exactly the tables that fit the chart and, at its scope, each related chart. */
  lemma DocumentAcceptsExactly(docs: Documents, within: Follow, chart: Chart, scoped: seq<RelatedChart>, value: Value)
    requires AllHeld(docs, chart, scoped)
    ensures Accepts(Through(docs, within), Generated(chart, scoped), value) <==>
            && value.Table? && FitsChart(within, value, chart)
            && GlobalsFit(value.entries, chart.valuesFiles)
            && forall i | 1 <= i < |scoped| :: FitsAtScope(within, value.entries, scoped[i])
  {
    if value.Table? {
      var follow, values := Through(docs, within), value.entries;
      var own, related := [OwnEmission(chart.name, [])], AllRelated(scoped, |scoped|);
      var global := GlobalEmission(AllGlobalSchemas(chart));
      DocumentJoins(follow, chart, scoped, values);
      HoldBoth(follow, own + related, global, values);
      HoldBoth(follow, own, related, values);
      OwnHolds(docs, within, chart, scoped, values);
      OwnGlobalsHold(docs, within, chart, scoped, values);
      RelatedGathered(scoped, |scoped|);
      GatheredHold(follow, Related, scoped, |scoped|, values);
      forall i | 1 <= i < |scoped|
        ensures AllHold(follow, Related(scoped[i]), values) <==> FitsAtScope(within, values, scoped[i])
      {
        var list :| Holds(docs, scoped[i].chart.document, scoped[i].chart, list);
        RelatedHold(docs, within, scoped[i], list, values);
      }
    }
  }

  lemma DocumentJoins(follow: Follow, chart: Chart, scoped: seq<RelatedChart>, values: Values)
    requires SelfFirst(chart, scoped)
    ensures Accepts(follow, Generated(chart, scoped), Table(values)) <==> AllHold(follow, Emissions(chart, scoped), values)
  {
    EmissionsRefer(chart, scoped);
    EmittedAccept(follow, Emissions(chart, scoped), values);
    ObjectAccepts(follow, Definitions(chart), AllEmitted(Emissions(chart, scoped)), values);
  }

  lemma ObjectAccepts(follow: Follow, definitions: map<string, Schema>, schemas: seq<Schema>, values: Values)
    ensures Accepts(follow, ANYTHING.(kind := ObjectKind, definitions := definitions, allOf := schemas), Table(values)) <==>
            AllAccept(follow, schemas, Table(values))
  {
    var document := ANYTHING.(kind := ObjectKind, definitions := definitions, allOf := schemas);
    assert document.allOf == schemas;
  }

  lemma EmissionsRefer(chart: Chart, scoped: seq<RelatedChart>)
    requires SelfFirst(chart, scoped)
    ensures forall e | e in Emissions(chart, scoped) :: e.reference.Reference?
  {
    RelatedRefer(scoped, |scoped|);
  }

  lemma {:induction false} RelatedRefer(scoped: seq<RelatedChart>, n: nat)
    requires 1 <= n <= |scoped|
    ensures forall e | e in AllRelated(scoped, n) :: e.reference.Reference?
    decreases n
  {
    if n > 1 {
      RelatedRefer(scoped, n - 1);
    }
  }
}
