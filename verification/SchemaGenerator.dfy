/** The JSON schema of a chart: definitions from its own values files and references into the schemas of related charts. */
module SchemaGenerators {
  import opened Options
  import opened Globals
  import opened Strings
  import opened JsonPointers
  import opened Schemas

  datatype ValuesFile = ValuesFile(baseName: string, values: Values)

  /** `document` names the file that holds the chart's generated schema; `schemaFile` is its parsed `values.schema.json`. */
  datatype Chart = Chart(name: string, document: string, valuesFiles: seq<ValuesFile>, schemaFile: Option<Schema>)

  datatype RelatedChart = RelatedChart(chart: Chart, scope: seq<string>, subScope: seq<string>)

  predicate IsSelf(s: RelatedChart) {
    s.scope == [] && s.subScope == []
  }

  function DescriptionFor(chart: Chart, file: ValuesFile): string {
    "\nJSON schema generated by helm-ls for the chart " + chart.name + " using values from the file " + file.baseName
  }

  function GlobalDescriptionFor(chart: Chart, file: ValuesFile): string {
    "\nJSON schema generated by helm-ls for the chart " + chart.name + " using global values from the file " + file.baseName
  }

  function Nest(schema: Schema, scopes: seq<string>): Schema {
    if scopes == [] then schema else ANYTHING.(properties := map[scopes[0] := Nest(schema, scopes[1..])])
  }

  method NestSchemaInScopes(schema: Schema, scopes: seq<string>) returns (nested: Schema)
    ensures nested == Nest(schema, scopes)
  {
    nested := schema;
    var i := |scopes|;
    while i > 0
      invariant 0 <= i <= |scopes|
      invariant nested == Nest(schema, scopes[i..])
    {
      i := i - 1;
      assert scopes[i..][1..] == scopes[i+1..];
      nested := ANYTHING.(properties := map[scopes[i] := nested]);
    }
  }

  /** `properties` before each name: the tokens that follow a scope through a schema. */
  function ScopeTokens(scopes: seq<string>): seq<string> {
    if scopes == [] then [] else ["properties", scopes[0]] + ScopeTokens(scopes[1..])
  }

  // ----- what the generated document holds -----

  function GlobalTable(values: Values): Option<Values> {
    if GLOBAL in values && values[GLOBAL].Table? then Some(values[GLOBAL].entries) else None
  }

  function LocalValues(values: Values): Values {
    if GlobalTable(values).None? then values else map key | key in values && key != GLOBAL :: values[key]
  }

  function FileSchema(chart: Chart, file: ValuesFile): Schema {
    DocumentOf(LocalValues(file.values), DescriptionFor(chart, file))
  }

  /** The schemas of the first so many values files. */
  function FileSchemas(chart: Chart, n: nat): (r: seq<Schema>)
    requires n <= |chart.valuesFiles|
    ensures |r| == n
    ensures forall i | 0 <= i < n :: r[i] == FileSchema(chart, chart.valuesFiles[i])
  {
    if n == 0 then [] else FileSchemas(chart, n - 1) + [FileSchema(chart, chart.valuesFiles[n-1])]
  }

  function ValuesSchemas(chart: Chart): seq<Schema> {
    (if chart.schemaFile.Some? then [chart.schemaFile.value] else []) + FileSchemas(chart, |chart.valuesFiles|)
  }

  function GlobalSchema(chart: Chart, file: ValuesFile): seq<Schema> {
    var table := GlobalTable(file.values);
    if table.Some? then [DocumentOf(table.value, GlobalDescriptionFor(chart, file))] else []
  }

  function GlobalSchemas(chart: Chart, n: nat): seq<Schema>
    requires n <= |chart.valuesFiles|
  {
    if n == 0 then [] else GlobalSchemas(chart, n - 1) + GlobalSchema(chart, chart.valuesFiles[n-1])
  }

  function AllGlobalSchemas(chart: Chart): seq<Schema> {
    GlobalSchemas(chart, |chart.valuesFiles|)
  }

  function OwnDefinitions(chart: Chart): map<string, Schema> {
    map[chart.name := ANYTHING.(allOf := ValuesSchemas(chart))]
  }

  function WithGlobal(definitions: map<string, Schema>, globals: seq<Schema>): map<string, Schema> {
    if globals == [] then definitions else definitions[GLOBAL := ANYTHING.(allOf := globals)]
  }

  function Definitions(chart: Chart): map<string, Schema> {
    WithGlobal(OwnDefinitions(chart), AllGlobalSchemas(chart))
  }

  // ----- the references it makes -----

  /** The pointers into a related chart's own definition: to all of it, or for an ancestor to the sub-scope of each values
      file that has a table there. */
  function Pointers(s: RelatedChart): seq<string> {
    if s.subScope == [] then [""] else FilePointers(s, FileIndexes(s, |s.chart.valuesFiles|))
  }

  function FilePointer(s: RelatedChart, i: nat): string {
    PointerText(["allOf", Decimal(i)] + ScopeTokens(s.subScope))
  }

  /** The values files, among the first so many, that hold a table at the sub-scope. */
  function FileIndexes(s: RelatedChart, n: nat): seq<nat>
    requires n <= |s.chart.valuesFiles|
  {
    if n == 0 then []
    else FileIndexes(s, n - 1) + if GetSubValues(s.chart.valuesFiles[n-1].values, s.subScope).Some? then [n - 1] else []
  }

  function FilePointers(s: RelatedChart, indexes: seq<nat>): (r: seq<string>)
    ensures |r| == |indexes|
    ensures forall k | 0 <= k < |r| :: r[k] == FilePointer(s, indexes[k])
  {
    if indexes == [] then [] else FilePointers(s, indexes[..|indexes|-1]) + [FilePointer(s, indexes[|indexes|-1])]
  }

  /** A reference, and the scopes of the chart under which it applies. */
  datatype Emission = Emission(reference: Reference, scopes: seq<string>)

  function Emitted(e: Emission): Schema {
    Nest(ANYTHING.(ref := e.reference), e.scopes)
  }

  function AllEmitted(es: seq<Emission>): seq<Schema> {
    if es == [] then [] else AllEmitted(es[..|es|-1]) + [Emitted(es[|es|-1])]
  }

  lemma {:induction false} AllEmittedAppend(es: seq<Emission>, fs: seq<Emission>)
    ensures AllEmitted(es + fs) == AllEmitted(es) + AllEmitted(fs)
  {
    if fs == [] {
      assert es + fs == es;
    } else {
      assert (es + fs)[..|es + fs|-1] == es + fs[..|fs|-1];
      AllEmittedAppend(es, fs[..|fs|-1]);
      Reassociate(AllEmitted(es), AllEmitted(fs[..|fs|-1]), [Emitted(fs[|fs|-1])]);
    }
  }

  function ReferenceTo(chart: Chart, pointer: string): Reference {
    Reference(chart.document, "/$defs/" + Escape(chart.name) + pointer)
  }

  function References(s: RelatedChart, pointers: seq<string>, n: nat): (r: seq<Emission>)
    requires n <= |pointers|
    ensures |r| == n
    ensures forall i | 0 <= i < n :: r[i] == Emission(ReferenceTo(s.chart, pointers[i]), s.scope)
  {
    if n == 0 then [] else References(s, pointers, n - 1) + [Emission(ReferenceTo(s.chart, pointers[n-1]), s.scope)]
  }

  predicate HasGlobal(files: seq<ValuesFile>) {
    exists i :: 0 <= i < |files| && GlobalTable(files[i].values).Some?
  }

  function GlobalReferences(chart: Chart): seq<Emission> {
    if HasGlobal(chart.valuesFiles) then [Emission(Reference(chart.document, "/$defs/global"), [GLOBAL])] else []
  }

  function Related(s: RelatedChart): seq<Emission> {
    References(s, Pointers(s), |Pointers(s)|) + GlobalReferences(s.chart)
  }

  /** What the first so many charts add, the chart itself left out. */
  function AllRelated(scoped: seq<RelatedChart>, n: nat): seq<Emission>
    requires 1 <= n <= |scoped|
  {
    if n == 1 then [] else AllRelated(scoped, n - 1) + Related(scoped[n-1])
  }

  function OwnEmission(name: string, scopes: seq<string>): Emission {
    Emission(Reference("", "/$defs/" + Escape(name)), scopes)
  }

  function GlobalEmission(globals: seq<Schema>): seq<Emission> {
    if globals == [] then [] else [OwnEmission(GLOBAL, [GLOBAL])]
  }

  /** The chart itself first, then every other chart under a scope. */
  predicate SelfFirst(chart: Chart, scoped: seq<RelatedChart>) {
    && scoped != [] && scoped[0] == RelatedChart(chart, [], [])
    && forall i | 1 <= i < |scoped| :: !IsSelf(scoped[i])
  }

  function Emissions(chart: Chart, scoped: seq<RelatedChart>): seq<Emission>
    requires SelfFirst(chart, scoped)
  {
    [OwnEmission(chart.name, [])] + AllRelated(scoped, |scoped|) + GlobalEmission(AllGlobalSchemas(chart))
  }

  function Generated(chart: Chart, scoped: seq<RelatedChart>): Schema
    requires SelfFirst(chart, scoped)
  {
    ANYTHING.(kind := ObjectKind, definitions := Definitions(chart), allOf := AllEmitted(Emissions(chart, scoped)))
  }

  // ----- the generator -----

  class SchemaGenerator {
    const chart: Chart
    var allOf: seq<Schema>
    var globalSchemas: seq<Schema>
    var definitions: map<string, Schema>

    constructor (chart: Chart)
      ensures this.chart == chart && allOf == [] && globalSchemas == [] && definitions == map[]
    {
      this.chart := chart;
      allOf, globalSchemas, definitions := [], [], map[];
    }

    method ProcessGlobalValues(file: ValuesFile) returns (values: Values)
      modifies this`globalSchemas
      ensures values == LocalValues(file.values)
      ensures globalSchemas == old(globalSchemas) + GlobalSchema(chart, file)
    {
      values := file.values;
      if GLOBAL !in values || !values[GLOBAL].Table? {
        return;
      }
      var schema := GenerateJsonSchema(values[GLOBAL].entries, GlobalDescriptionFor(chart, file));
      globalSchemas := globalSchemas + [schema];
      values := map key | key in values && key != GLOBAL :: values[key];
    }

    /** Appends a reference, nested in scopes, to the schemas that all apply. */
    method Emit(reference: Reference, scopes: seq<string>)
      modifies this`allOf
      ensures allOf == old(allOf) + AllEmitted([Emission(reference, scopes)])
    {
      var schema := NestSchemaInScopes(ANYTHING.(ref := reference), scopes);
      allOf := allOf + [schema];
      OneEmitted(Emission(reference, scopes));
    }

    method AddNestedDef(name: string, schema: Schema, nesting: seq<string>)
      modifies this`definitions, this`allOf
      ensures definitions == old(definitions)[name := schema]
      ensures allOf == old(allOf) + AllEmitted([OwnEmission(name, nesting)])
    {
      definitions := definitions[name := schema];
      Emit(Reference("", "/$defs/" + Escape(name)), nesting);
    }

    method GenerateSchemaForCurrentChart()
      modifies this
      ensures definitions == old(definitions)[chart.name := ANYTHING.(allOf := ValuesSchemas(chart))]
      ensures allOf == old(allOf) + AllEmitted([OwnEmission(chart.name, [])])
      ensures globalSchemas == old(globalSchemas) + AllGlobalSchemas(chart)
    {
      var schemas: seq<Schema> := [];
      if chart.schemaFile.Some? {
        schemas := schemas + [chart.schemaFile.value];
      }
      var generated := GenerateFileSchemas();
      schemas := schemas + generated;
      assert schemas == ValuesSchemas(chart);
      AddNestedDef(chart.name, ANYTHING.(allOf := schemas), []);
    }

    method GenerateFileSchemas() returns (schemas: seq<Schema>)
      modifies this`globalSchemas
      ensures schemas == FileSchemas(chart, |chart.valuesFiles|)
      ensures globalSchemas == old(globalSchemas) + AllGlobalSchemas(chart)
    {
      schemas := [];
      ghost var globals: seq<Schema> := [];
      for i := 0 to |chart.valuesFiles|
        invariant schemas == FileSchemas(chart, i) && globals == GlobalSchemas(chart, i)
        invariant globalSchemas == old(globalSchemas) + globals
      {
        schemas, globals := AddFileSchema(i, schemas, old(globalSchemas), globals);
      }
    }

    method AddFileSchema(i: nat, schemas: seq<Schema>, ghost before: seq<Schema>, ghost globals: seq<Schema>)
      returns (more: seq<Schema>, ghost later: seq<Schema>)
      requires i < |chart.valuesFiles| && schemas == FileSchemas(chart, i)
      requires globals == GlobalSchemas(chart, i) && globalSchemas == before + globals
      modifies this`globalSchemas
      ensures more == FileSchemas(chart, i + 1) && later == GlobalSchemas(chart, i + 1)
      ensures globalSchemas == before + later
    {
      var file := chart.valuesFiles[i];
      var values := ProcessGlobalValues(file);
      var schema := GenerateJsonSchema(values, DescriptionFor(chart, file));
      more, later := schemas + [schema], globals + GlobalSchema(chart, file);
      Reassociate(before, globals, GlobalSchema(chart, file));
    }

    method ScopePointer(scopes: seq<string>) returns (pointer: string)
      ensures pointer == PointerText(ScopeTokens(scopes))
    {
      pointer := "";
      for k := 0 to |scopes|
        invariant pointer == PointerText(ScopeTokens(scopes[..k]))
      {
        ScopeTokensStep(scopes, k);
        pointer := pointer + "/properties/" + Escape(scopes[k]);
      }
      assert scopes[..|scopes|] == scopes;
    }

    method RefPointers(s: RelatedChart) returns (pointers: seq<string>)
      ensures pointers == Pointers(s)
    {
      pointers := [""];
      if |s.subScope| > 0 {
        var pointer := ScopePointer(s.subScope);
        pointers := IndexedPointers(s, pointer);
      }
    }

    method IndexedPointers(s: RelatedChart, pointer: string) returns (pointers: seq<string>)
      requires pointer == PointerText(ScopeTokens(s.subScope))
      ensures pointers == FilePointers(s, FileIndexes(s, |s.chart.valuesFiles|))
    {
      pointers := [];
      ghost var indexes: seq<nat> := [];
      for i := 0 to |s.chart.valuesFiles|
        invariant indexes == FileIndexes(s, i) && pointers == FilePointers(s, indexes)
      {
        pointers, indexes := AddPointer(s, i, pointer, pointers, indexes);
      }
    }

    /** The pointer to one file, if the file has a table at the sub-scope. */
    method AddPointer(s: RelatedChart, i: nat, pointer: string, pointers: seq<string>, ghost indexes: seq<nat>)
      returns (more: seq<string>, ghost later: seq<nat>)
      requires i < |s.chart.valuesFiles| && pointer == PointerText(ScopeTokens(s.subScope))
      requires indexes == FileIndexes(s, i) && pointers == FilePointers(s, indexes)
      ensures later == FileIndexes(s, i + 1) && more == FilePointers(s, later)
    {
      more, later := pointers, indexes;
      if GetSubValues(s.chart.valuesFiles[i].values, s.subScope).Some? {
        var indexed := "/allOf/" + Decimal(i) + pointer;
        IndexedPointer(i, s.subScope);
        OneMorePointer(s, indexes, i, indexed);
        more, later := pointers + [indexed], indexes + [i];
      }
    }

    method GenerateSchemaForRelatedChart(s: RelatedChart)
      modifies this`allOf
      ensures allOf == old(allOf) + AllEmitted(Related(s))
    {
      ghost var before := allOf;
      var pointers := RefPointers(s);
      AddReferences(s, pointers);
      AddGlobalRef(s);
      EmittedStep(before, References(s, pointers, |pointers|), GlobalReferences(s.chart));
    }

    method AddReferences(s: RelatedChart, pointers: seq<string>)
      modifies this`allOf
      ensures allOf == old(allOf) + AllEmitted(References(s, pointers, |pointers|))
    {
      for i := 0 to |pointers|
        invariant allOf == old(allOf) + AllEmitted(References(s, pointers, i))
      {
        Emit(Reference(s.chart.document, "/$defs/" + Escape(s.chart.name) + pointers[i]), s.scope);
        EmittedStep(old(allOf), References(s, pointers, i), [Emission(ReferenceTo(s.chart, pointers[i]), s.scope)]);
      }
    }

    method AddGlobalRef(s: RelatedChart)
      modifies this`allOf
      ensures allOf == old(allOf) + AllEmitted(GlobalReferences(s.chart))
    {
      var files := s.chart.valuesFiles;
      for i := 0 to |files|
        invariant allOf == old(allOf) && !HasGlobal(files[..i])
      {
        var found := GetSubValues(files[i].values, [GLOBAL]);
        if found.Some? {
          assert GlobalTable(files[i].values).Some?;
          Emit(Reference(s.chart.document, "/$defs/global"), [GLOBAL]);
          return;
        }
      }
      assert files[..|files|] == files;
    }

    method AddRelated(scoped: seq<RelatedChart>)
      requires scoped != []
      modifies this`allOf
      ensures allOf == old(allOf) + AllEmitted(AllRelated(scoped, |scoped|))
    {
      for i := 1 to |scoped|
        invariant allOf == old(allOf) + AllEmitted(AllRelated(scoped, i))
      {
        GenerateSchemaForRelatedChart(scoped[i]);
        EmittedStep(old(allOf), AllRelated(scoped, i), Related(scoped[i]));
      }
    }

    method AddGlobalDef()
      modifies this`definitions, this`allOf
      ensures definitions == WithGlobal(old(definitions), globalSchemas)
      ensures allOf == old(allOf) + AllEmitted(GlobalEmission(globalSchemas))
    {
      if |globalSchemas| == 0 {
        return;
      }
      AddNestedDef(GLOBAL, ANYTHING.(allOf := globalSchemas), [GLOBAL]);
    }

    method GenerateOwn()
      requires allOf == [] && globalSchemas == [] && definitions == map[]
      modifies this
      ensures definitions == OwnDefinitions(chart) && globalSchemas == AllGlobalSchemas(chart)
      ensures allOf == AllEmitted([OwnEmission(chart.name, [])])
    {
      GenerateSchemaForCurrentChart();
      assert definitions == OwnDefinitions(chart);
    }

    method Generate(scoped: seq<RelatedChart>) returns (schema: Schema)
      requires SelfFirst(chart, scoped) && allOf == [] && globalSchemas == [] && definitions == map[]
      modifies this
      ensures schema == Generated(chart, scoped)
    {
      GenerateOwn();
      AddRelated(scoped);
      AddGlobalDef();
      EmissionsJoin(chart, scoped);
      schema := ANYTHING.(kind := ObjectKind, definitions := definitions, allOf := allOf);
    }
  }

  lemma EmissionsJoin(chart: Chart, scoped: seq<RelatedChart>)
    requires SelfFirst(chart, scoped)
    ensures AllEmitted(Emissions(chart, scoped)) ==
            AllEmitted([OwnEmission(chart.name, [])]) + AllEmitted(AllRelated(scoped, |scoped|)) +
            AllEmitted(GlobalEmission(AllGlobalSchemas(chart)))
  {
    var own, related := [OwnEmission(chart.name, [])], AllRelated(scoped, |scoped|);
    AllEmittedAppend(own, related);
    AllEmittedAppend(own + related, GlobalEmission(AllGlobalSchemas(chart)));
  }

  lemma OneMorePointer(s: RelatedChart, indexes: seq<nat>, i: nat, pointer: string)
    requires pointer == FilePointer(s, i)
    ensures FilePointers(s, indexes + [i]) == FilePointers(s, indexes) + [pointer]
  {
    assert (indexes + [i])[..|indexes|] == indexes;
  }

  lemma OneEmitted(e: Emission)
    ensures AllEmitted([e]) == [Emitted(e)]
  {
    assert [e][..0] == [];
  }

  lemma EmittedStep(before: seq<Schema>, es: seq<Emission>, fs: seq<Emission>)
    ensures before + AllEmitted(es) + AllEmitted(fs) == before + AllEmitted(es + fs)
  {
    AllEmittedAppend(es, fs);
    Reassociate(before, AllEmitted(es), AllEmitted(fs));
  }

  lemma Reassociate<T>(a: seq<T>, b: seq<T>, c: seq<T>)
    ensures a + b + c == a + (b + c)
  {
  }

  lemma ScopeTokensStep(scopes: seq<string>, k: nat)
    requires k < |scopes|
    ensures PointerText(ScopeTokens(scopes[..k+1])) == PointerText(ScopeTokens(scopes[..k])) + "/properties/" + Escape(scopes[k])
  {
    ScopeTokensAppend(scopes[..k], scopes[k]);
    assert scopes[..k+1] == scopes[..k] + [scopes[k]];
    PointerAppend(ScopeTokens(scopes[..k]), ["properties", scopes[k]]);
    PropertyPointer(scopes[k]);
  }

  lemma {:induction false} ScopeTokensAppend(scopes: seq<string>, last: string)
    ensures ScopeTokens(scopes + [last]) == ScopeTokens(scopes) + ["properties", last]
  {
    if scopes != [] {
      assert (scopes + [last])[1..] == scopes[1..] + [last];
      ScopeTokensAppend(scopes[1..], last);
    }
  }

  /** Text without tildes and slashes is its own escape. */
  lemma {:induction false} NothingToEscape(s: string)
    requires '~' !in s && '/' !in s
    ensures Escape(s) == s
  {
    if s != "" {
      assert s == [s[0]] + s[1..];
      NothingToEscape(s[1..]);
      EscapeByChar(s[0], s[1..]);
    }
  }

  lemma PairPointer(first: string, second: string)
    requires '~' !in first && '/' !in first
    ensures PointerText([first, second]) == "/" + first + "/" + Escape(second)
  {
    NothingToEscape(first);
    var rest := [second];
    assert [first, second][1..] == rest && rest[1..] == [];
    assert PointerText(rest) == "/" + Escape(second) + PointerText([]);
    assert "/" + first + ("/" + Escape(second) + "") == "/" + first + "/" + Escape(second);
  }

  lemma PropertyPointer(name: string)
    ensures PointerText(["properties", name]) == "/properties/" + Escape(name)
  {
    PairPointer("properties", name);
    PropertiesText();
  }

  lemma PropertiesText()
    ensures "/" + "properties" + "/" == "/properties/"
  {
  }

  lemma AllOfText()
    ensures "/" + "allOf" + "/" == "/allOf/"
  {
  }

  lemma IndexedPointer(i: nat, scopes: seq<string>)
    ensures PointerText(["allOf", Decimal(i)] + ScopeTokens(scopes)) == "/allOf/" + Decimal(i) + PointerText(ScopeTokens(scopes))
  {
    PairPointer("allOf", Decimal(i));
    DigitsAreDecimal(i);
    NothingToEscape(Decimal(i));
    PointerAppend(["allOf", Decimal(i)], ScopeTokens(scopes));
    AllOfText();
  }
}
