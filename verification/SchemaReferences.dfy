/** Where the references of a generated schema lead in the schemas of the charts they name. */
module SchemaReferences {
  import opened Options
  import opened Globals
  import opened Strings
  import opened JsonPointers
  import opened Schemas
  import opened SchemaGenerators

  /** Chart names as keys: not empty, and not of the form that stands for an array element. */
  predicate PlainScope(scope: seq<string>) {
    forall i | 0 <= i < |scope| :: scope[i] != "" && !IsRangeKey(scope[i])
  }

  // ----- following a path -----

  /** Following the scopes of a nested schema leads to the schema itself. */
  lemma {:induction false} NestReached(schema: Schema, scopes: seq<string>)
    ensures Evaluate(AtSchema(Nest(schema, scopes)), ScopeTokens(scopes)) == Some(AtSchema(schema))
    decreases |scopes|
  {
    if scopes != [] {
      var inner := Nest(schema, scopes[1..]);
      ScopeStep(Nest(schema, scopes), scopes, inner);
      NestReached(schema, scopes[1..]);
    }
  }

  lemma ScopeStep(schema: Schema, scopes: seq<string>, next: Schema)
    requires scopes != [] && scopes[0] in schema.properties && schema.properties[scopes[0]] == next
    ensures Evaluate(AtSchema(schema), ScopeTokens(scopes)) == Evaluate(AtSchema(next), ScopeTokens(scopes[1..]))
  {
    var tokens := ScopeTokens(scopes);
    assert tokens == ["properties"] + ([scopes[0]] + ScopeTokens(scopes[1..]));
    assert tokens[1..] == [scopes[0]] + ScopeTokens(scopes[1..]);
    assert tokens[1..][1..] == ScopeTokens(scopes[1..]);
    assert Member(AtSchema(schema), "properties") == Some(AtMembers(schema.properties));
    assert Member(AtMembers(schema.properties), scopes[0]) == Some(AtSchema(next));
  }

  lemma ScopeMissed(schema: Schema, scopes: seq<string>)
    requires scopes != [] && scopes[0] !in schema.properties
    ensures Evaluate(AtSchema(schema), ScopeTokens(scopes)).None?
  {
    var tokens := ScopeTokens(scopes);
    assert tokens == ["properties"] + ([scopes[0]] + ScopeTokens(scopes[1..]));
    assert tokens[1..] == [scopes[0]] + ScopeTokens(scopes[1..]);
    if schema.properties != map[] {
      assert Member(AtSchema(schema), "properties") == Some(AtMembers(schema.properties));
      assert Member(AtMembers(schema.properties), scopes[0]).None?;
    }
  }

  /** The schema at a path of properties. */
  function PropertyAt(schema: Schema, path: seq<string>): Option<Schema>
    decreases |path|
  {
    if path == [] then Some(schema)
    else if path[0] in schema.properties then PropertyAt(schema.properties[path[0]], path[1..])
    else None
  }

  /** A pointer of properties leads to the schema there, and nowhere if there is none. */
  lemma {:induction false} PropertiesReached(schema: Schema, path: seq<string>)
    ensures Evaluate(AtSchema(schema), ScopeTokens(path)) ==
            if PropertyAt(schema, path).Some? then Some(AtSchema(PropertyAt(schema, path).value)) else None
    decreases |path|
  {
    if path != [] {
      if path[0] in schema.properties {
        ScopeStep(schema, path, schema.properties[path[0]]);
        PropertiesReached(schema.properties[path[0]], path[1..]);
      } else {
        ScopeMissed(schema, path);
      }
    }
  }

  /** The value at a path of keys, each taken literally. */
  function KeyLookup(values: Values, path: seq<string>): Option<Value>
    decreases |path|
  {
    if path == [] then Some(Table(values))
    else if path[0] !in values then None
    else if |path| == 1 then Some(values[path[0]])
    else if values[path[0]].Table? then KeyLookup(values[path[0]].entries, path[1..])
    else None
  }

  lemma {:induction false} PlainLookup(values: Values, path: seq<string>)
    requires PlainScope(path)
    ensures PathLookup(values, path) == KeyLookup(values, path)
    decreases |path|
  {
    if |path| > 1 && path[0] in values && values[path[0]].Table? {
      assert PlainScope(path[1..]);
      PlainLookup(values[path[0]].entries, path[1..]);
    }
  }

  function Described(value: Value, description: string): Schema {
    SchemaOf(value, description).(description := Some(description))
  }

  /** A path leads somewhere in the generated schema exactly when it does in the values, and then to what was generated from the
      value there. */
  lemma {:induction false} PathReached(schema: Schema, values: Values, path: seq<string>, description: string)
    requires path != [] && schema.properties == SchemaOf(Table(values), description).properties
    ensures PropertyAt(schema, path) ==
            if KeyLookup(values, path).Some? then Some(Described(KeyLookup(values, path).value, description)) else None
    decreases |path|
  {
    if path[0] in values && |path| > 1 {
      var value := values[path[0]];
      if value.Table? {
        PathReached(schema.properties[path[0]], value.entries, path[1..], description);
      } else {
        assert schema.properties[path[0]].properties == map[];
      }
    }
  }

  /** At the path of a value the generated schema carries the description, and a text, number or flag as its own default. */
  lemma DefaultGiven(values: Values, path: seq<string>, description: string)
    requires path != [] && KeyLookup(values, path).Some?
    ensures PropertyAt(DocumentOf(values, description), path).Some?
    ensures var value, schema := KeyLookup(values, path).value, PropertyAt(DocumentOf(values, description), path).value;
            && schema.description == Some(description)
            && schema.default == if value.Table? || value.Array? || value.Null? then None else Some(value)
  {
    PathReached(DocumentOf(values, description), values, path, description);
  }

  lemma {:induction false} ListReached(list: seq<Schema>, i: nat, k: nat)
    requires k <= i
    ensures ListMember(list, Decimal(i), k) == if i < |list| then Some(AtSchema(list[i])) else None
    decreases |list| - k
  {
    if k < |list| {
      if Decimal(i) == Decimal(k) {
        DecimalInjective(i, k);
      } else {
        ListReached(list, i, k + 1);
      }
    }
  }

  // ----- the chart's own definition -----

  function DefinitionPointer(name: string, rest: seq<string>): string {
    "/$defs/" + Escape(name) + PointerText(rest)
  }

  lemma DefsText()
    ensures "/" + "$defs" + "/" == "/$defs/"
  {
  }

  lemma DefinitionTokens(name: string, rest: seq<string>)
    ensures Tokens(DefinitionPointer(name, rest)) == Some(["$defs", name] + rest)
  {
    PairPointer("$defs", name);
    DefsText();
    PointerAppend(["$defs", name], rest);
    PointerRoundTrip(["$defs", name] + rest);
  }

  lemma DefinitionReached(document: Schema, name: string, rest: seq<string>)
    requires name in document.definitions
    ensures Evaluate(AtSchema(document), ["$defs", name] + rest) == Evaluate(AtSchema(document.definitions[name]), rest)
  {
    var tokens := ["$defs", name] + rest;
    assert tokens[1..] == [name] + rest && tokens[1..][1..] == rest;
    assert Member(AtSchema(document), "$defs") == Some(AtMembers(document.definitions));
  }

  lemma ResolveDefinition(document: Schema, name: string, rest: seq<string>)
    requires name in document.definitions
    ensures Tokens(DefinitionPointer(name, rest)) == Some(["$defs", name] + rest)
    ensures Evaluate(AtSchema(document), ["$defs", name] + rest) == Evaluate(AtSchema(document.definitions[name]), rest)
  {
    DefinitionTokens(name, rest);
    DefinitionReached(document, name, rest);
  }

  /** What a chart's own definition joins: the schemas of its files, unless it is itself named `global` and has global values,
      whose definition takes its place. */
  function OwnSchemas(chart: Chart): seq<Schema> {
    if chart.name == GLOBAL && AllGlobalSchemas(chart) != [] then AllGlobalSchemas(chart) else ValuesSchemas(chart)
  }

  lemma OwnDefinitionKept(chart: Chart)
    ensures chart.name in Definitions(chart) && Definitions(chart)[chart.name] == ANYTHING.(allOf := OwnSchemas(chart))
  {
  }

  lemma AllOfReached(schema: Schema, i: nat, rest: seq<string>)
    ensures Evaluate(AtSchema(schema), ["allOf", Decimal(i)] + rest) ==
            if i < |schema.allOf| then Evaluate(AtSchema(schema.allOf[i]), rest) else None
  {
    var tokens := ["allOf", Decimal(i)] + rest;
    assert tokens[1..] == [Decimal(i)] + rest && tokens[1..][1..] == rest;
    if schema.allOf != [] {
      assert Member(AtSchema(schema), "allOf") == Some(AtList(schema.allOf));
      ListReached(schema.allOf, i, 0);
    }
  }

  // ----- references to descendants -----

  /** The reference to a dependency leads to the definition that joins everything known about its values. */
  lemma DescendantReference(s: RelatedChart, scoped: seq<RelatedChart>)
    requires s.subScope == [] && SelfFirst(s.chart, scoped)
    ensures Pointers(s) == [""]
    ensures Resolve(Generated(s.chart, scoped), ReferenceTo(s.chart, "").pointer) == Some(ANYTHING.(allOf := OwnSchemas(s.chart)))
  {
    OwnDefinitionKept(s.chart);
    DefinedAs(Generated(s.chart, scoped), s.chart.name);
  }

  lemma DefinedAs(document: Schema, name: string)
    requires name in document.definitions
    ensures Resolve(document, "/$defs/" + Escape(name) + "") == Some(document.definitions[name])
  {
    ResolveDefinition(document, name, []);
    assert PointerText([]) == "";
  }

  // ----- references to ancestors -----

  lemma {:induction false} FilesExactly(s: RelatedChart, n: nat, i: nat)
    requires n <= |s.chart.valuesFiles|
    ensures i in FileIndexes(s, n) <==> i < n && GetSubValues(s.chart.valuesFiles[i].values, s.subScope).Some?
    decreases n
  {
    if n > 0 {
      FilesExactly(s, n - 1, i);
    }
  }

  /** A reference is made for exactly the values files that hold a table at the sub-scope. */
  lemma PointersExactly(s: RelatedChart, p: string)
    requires s.subScope != []
    ensures p in Pointers(s) <==>
            exists i: nat :: i < |s.chart.valuesFiles| && HasTable(s, i) && p == FilePointer(s, i)
  {
    var indexes := FileIndexes(s, |s.chart.valuesFiles|);
    if p in Pointers(s) {
      var k :| 0 <= k < |indexes| && p == FilePointers(s, indexes)[k];
      FilesExactly(s, |s.chart.valuesFiles|, indexes[k]);
      assert HasTable(s, indexes[k]);
    }
    if i: nat :| i < |s.chart.valuesFiles| && HasTable(s, i) && p == FilePointer(s, i) {
      FilesExactly(s, |s.chart.valuesFiles|, i);
      var k :| 0 <= k < |indexes| && indexes[k] == i;
      assert FilePointers(s, indexes)[k] == p;
    }
  }

  predicate HasTable(s: RelatedChart, i: nat)
    requires i < |s.chart.valuesFiles|
  {
    GetSubValues(s.chart.valuesFiles[i].values, s.subScope).Some?
  }

  /** Where the reference for a file leads, whatever the chart: to the sub-scope in the entry of that number. */
  lemma FileReferenceLeads(s: RelatedChart, scoped: seq<RelatedChart>, i: nat)
    requires SelfFirst(s.chart, scoped)
    ensures Resolve(Generated(s.chart, scoped), ReferenceTo(s.chart, FilePointer(s, i)).pointer) ==
            if i < |OwnSchemas(s.chart)| then PropertyAt(OwnSchemas(s.chart)[i], s.subScope) else None
  {
    var document, rest := Generated(s.chart, scoped), ["allOf", Decimal(i)] + ScopeTokens(s.subScope);
    OwnDefinitionKept(s.chart);
    DefinitionTokens(s.chart.name, rest);
    DefinitionReached(document, s.chart.name, rest);
    AllOfReached(document.definitions[s.chart.name], i, ScopeTokens(s.subScope));
    if i < |OwnSchemas(s.chart)| {
      PropertiesReached(OwnSchemas(s.chart)[i], s.subScope);
    }
  }

  /** The schema generated from the value that a file holds at a path. */
  function SchemaAt(chart: Chart, file: ValuesFile, path: seq<string>): Option<Schema> {
    var value := KeyLookup(LocalValues(file.values), path);
    if value.Some? then Some(Described(value.value, DescriptionFor(chart, file))) else None
  }

  lemma FileSchemaAt(chart: Chart, file: ValuesFile, path: seq<string>)
    requires path != []
    ensures PropertyAt(FileSchema(chart, file), path) == SchemaAt(chart, file, path)
  {
    PathReached(FileSchema(chart, file), LocalValues(file.values), path, DescriptionFor(chart, file));
  }

  /** Exactly where the reference for an ancestor's file leads, and so exactly when it leads nowhere. Without a
      `values.schema.json` it leads to the file's own value at the sub-scope. With one the references are read one entry early:
      that for the first file in the schema file itself, any other in the file before, so that it resolves exactly when that
      one has the sub-scope. */
  lemma FileReferenceExactly(s: RelatedChart, scoped: seq<RelatedChart>, i: nat)
    requires SelfFirst(s.chart, scoped) && s.chart.name != GLOBAL && s.subScope != [] && i < |s.chart.valuesFiles|
    ensures var target := Resolve(Generated(s.chart, scoped), ReferenceTo(s.chart, FilePointer(s, i)).pointer);
            target ==
              if s.chart.schemaFile.None? then SchemaAt(s.chart, s.chart.valuesFiles[i], s.subScope)
              else if i == 0 then PropertyAt(s.chart.schemaFile.value, s.subScope)
              else SchemaAt(s.chart, s.chart.valuesFiles[i-1], s.subScope)
    ensures var target := Resolve(Generated(s.chart, scoped), ReferenceTo(s.chart, FilePointer(s, i)).pointer);
            s.chart.schemaFile.Some? && i > 0 ==>
              (target.Some? <==> KeyLookup(LocalValues(s.chart.valuesFiles[i-1].values), s.subScope).Some?)
  {
    FileReferenceLeads(s, scoped, i);
    var k := if s.chart.schemaFile.Some? then i - 1 else i;
    EntryOf(s.chart, i);
    if k >= 0 {
      FileSchemaAt(s.chart, s.chart.valuesFiles[k], s.subScope);
    }
  }

  lemma EntryOf(chart: Chart, i: nat)
    requires i < |chart.valuesFiles|
    ensures i < |ValuesSchemas(chart)|
    ensures ValuesSchemas(chart)[i] ==
            if chart.schemaFile.None? then FileSchema(chart, chart.valuesFiles[i])
            else if i == 0 then chart.schemaFile.value
            else FileSchema(chart, chart.valuesFiles[i-1])
  {
  }

  lemma LocalLookup(values: Values, path: seq<string>)
    requires path != [] && path[0] != GLOBAL
    ensures KeyLookup(LocalValues(values), path) == KeyLookup(values, path)
  {
  }

  /** For an ancestor without a `values.schema.json`, the reference for a values file with a table at the sub-scope leads to the
      schema generated from that table. */
  lemma AncestorReference(s: RelatedChart, scoped: seq<RelatedChart>, i: nat)
    requires SelfFirst(s.chart, scoped) && s.chart.name != GLOBAL && s.chart.schemaFile.None?
    requires s.subScope != [] && PlainScope(s.subScope) && s.subScope[0] != GLOBAL
    requires i < |s.chart.valuesFiles| && HasTable(s, i)
    ensures var file := s.chart.valuesFiles[i];
            Resolve(Generated(s.chart, scoped), ReferenceTo(s.chart, FilePointer(s, i)).pointer) ==
            Some(DocumentOf(GetSubValues(file.values, s.subScope).value, DescriptionFor(s.chart, file)))
  {
    var values := s.chart.valuesFiles[i].values;
    FileReferenceExactly(s, scoped, i);
    PlainLookup(values, s.subScope);
    LocalLookup(values, s.subScope);
  }

  // ----- references to global values -----

  lemma {:induction false} GlobalsComplete(chart: Chart, n: nat, i: nat)
    requires i < n <= |chart.valuesFiles|
    ensures forall schema | schema in GlobalSchema(chart, chart.valuesFiles[i]) :: schema in GlobalSchemas(chart, n)
    decreases n
  {
    if i < n - 1 {
      GlobalsComplete(chart, n - 1, i);
    }
  }

  lemma {:induction false} GlobalsSound(chart: Chart, n: nat, schema: Schema) returns (i: nat)
    requires n <= |chart.valuesFiles| && schema in GlobalSchemas(chart, n)
    ensures i < n && schema in GlobalSchema(chart, chart.valuesFiles[i])
    decreases n
  {
    i := n - 1;
    if schema !in GlobalSchema(chart, chart.valuesFiles[i]) {
      i := GlobalsSound(chart, n - 1, schema);
    }
  }

  lemma GlobalPointer()
    ensures "/$defs/global" == DefinitionPointer(GLOBAL, [])
  {
    NothingToEscape(GLOBAL);
    GlobalText(Escape(GLOBAL));
  }

  lemma GlobalText(escaped: string)
    requires escaped == "global"
    ensures "/$defs/global" == "/$defs/" + escaped + ""
  {
  }

  lemma GlobalsExactly(chart: Chart)
    ensures GlobalReferences(chart) != [] <==> AllGlobalSchemas(chart) != []
  {
    var n := |chart.valuesFiles|;
    if HasGlobal(chart.valuesFiles) {
      var i :| 0 <= i < n && GlobalTable(chart.valuesFiles[i].values).Some?;
      assert GlobalSchema(chart, chart.valuesFiles[i])[0] in GlobalSchema(chart, chart.valuesFiles[i]);
      GlobalsComplete(chart, n, i);
    } else if GlobalSchemas(chart, n) != [] {
      var i := GlobalsSound(chart, n, GlobalSchemas(chart, n)[0]);
    }
  }

  /** A reference to a chart's global values is made exactly when that chart's schema defines them. */
  lemma GlobalReferenceMade(chart: Chart)
    requires chart.name != GLOBAL
    ensures GlobalReferences(chart) != [] <==> GLOBAL in Definitions(chart)
  {
    GlobalsExactly(chart);
  }

  /** And it leads there. */
  lemma GlobalReferenceResolves(chart: Chart, scoped: seq<RelatedChart>, e: Emission)
    requires SelfFirst(chart, scoped) && e in GlobalReferences(chart)
    ensures e.reference == Reference(chart.document, "/$defs/global")
    ensures Resolve(Generated(chart, scoped), e.reference.pointer) == Some(ANYTHING.(allOf := AllGlobalSchemas(chart)))
  {
    GlobalsExactly(chart);
    GlobalDefinitionResolves(Generated(chart, scoped), ANYTHING.(allOf := AllGlobalSchemas(chart)));
  }

  lemma GlobalDefinitionResolves(document: Schema, schema: Schema)
    requires GLOBAL in document.definitions && document.definitions[GLOBAL] == schema
    ensures Resolve(document, "/$defs/global") == Some(schema)
  {
    GlobalPointer();
    ResolveDefinition(document, GLOBAL, []);
  }

  /** The references a schema makes into itself lead to its own definitions. */
  lemma OwnReferencesResolve(chart: Chart, scoped: seq<RelatedChart>, e: Emission)
    requires SelfFirst(chart, scoped)
    requires e == OwnEmission(chart.name, []) || e in GlobalEmission(AllGlobalSchemas(chart))
    ensures e in Emissions(chart, scoped) && e.reference.document == ""
    ensures Resolve(Generated(chart, scoped), e.reference.pointer).Some?
  {
    var name := if e == OwnEmission(chart.name, []) then chart.name else GLOBAL;
    assert name in Definitions(chart);
    DefinedNameResolves(Generated(chart, scoped), name);
  }

  lemma DefinedNameResolves(document: Schema, name: string)
    requires name in document.definitions
    ensures Resolve(document, "/$defs/" + Escape(name)).Some?
  {
    OwnPointer(name);
    ResolveDefinition(document, name, []);
  }

  lemma OwnPointer(name: string)
    ensures "/$defs/" + Escape(name) == DefinitionPointer(name, [])
  {
    assert PointerText([]) == "";
  }

  // ----- no reference dangles -----

  predicate Leads(document: Schema, e: Emission) {
    e.reference.Reference? && Resolve(document, e.reference.pointer).Some?
  }

  /** Every reference made for a related chart leads to a schema in the schema generated for that chart, exactly when for each
      of an ancestor's files with a table at the sub-scope the entry of that number has it too. Descendants and global values
      are always found. */
  lemma ResolvesExactly(s: RelatedChart, scoped: seq<RelatedChart>)
    requires SelfFirst(s.chart, scoped)
    ensures (forall e | e in Related(s) :: Leads(Generated(s.chart, scoped), e)) <==>
            s.subScope == [] || forall i: nat | i < |s.chart.valuesFiles| && HasTable(s, i) :: EntryHasScope(s, i)
  {
    var document, related := Generated(s.chart, scoped), Related(s);
    if s.subScope == [] || forall i: nat | i < |s.chart.valuesFiles| && HasTable(s, i) :: EntryHasScope(s, i) {
      forall e | e in related ensures Leads(document, e) {
        ReferenceResolves(s, scoped, e);
      }
    } else {
      var i: nat :| i < |s.chart.valuesFiles| && HasTable(s, i) && !EntryHasScope(s, i);
      var e := MissingDangles(s, scoped, i);
    }
  }

  lemma MissingDangles(s: RelatedChart, scoped: seq<RelatedChart>, i: nat) returns (e: Emission)
    requires SelfFirst(s.chart, scoped) && s.subScope != [] && i < |s.chart.valuesFiles| && HasTable(s, i) && !EntryHasScope(s, i)
    ensures e in Related(s) && !Leads(Generated(s.chart, scoped), e)
  {
    FileReferenceLeads(s, scoped, i);
    e := FileReferenceMade(s, i);
  }

  predicate EntryHasScope(s: RelatedChart, i: nat) {
    i < |OwnSchemas(s.chart)| && PropertyAt(OwnSchemas(s.chart)[i], s.subScope).Some?
  }

  lemma FileReferenceMade(s: RelatedChart, i: nat) returns (e: Emission)
    requires s.subScope != [] && i < |s.chart.valuesFiles| && HasTable(s, i)
    ensures e in Related(s) && e.reference == ReferenceTo(s.chart, FilePointer(s, i))
  {
    PointersExactly(s, FilePointer(s, i));
    var k :| 0 <= k < |Pointers(s)| && Pointers(s)[k] == FilePointer(s, i);
    e := References(s, Pointers(s), |Pointers(s)|)[k];
    assert e in References(s, Pointers(s), |Pointers(s)|);
  }

  lemma ReferenceResolves(s: RelatedChart, scoped: seq<RelatedChart>, e: Emission)
    requires SelfFirst(s.chart, scoped) && e in Related(s)
    requires s.subScope == [] || forall i: nat | i < |s.chart.valuesFiles| && HasTable(s, i) :: EntryHasScope(s, i)
    ensures Leads(Generated(s.chart, scoped), e) && e.reference.document == s.chart.document
  {
    if e in GlobalReferences(s.chart) {
      GlobalReferenceResolves(s.chart, scoped, e);
    } else {
      assert e in References(s, Pointers(s), |Pointers(s)|);
      var k :| 0 <= k < |Pointers(s)| && e == Emission(ReferenceTo(s.chart, Pointers(s)[k]), s.scope);
      if s.subScope == [] {
        DescendantReference(s, scoped);
      } else {
        PointersExactly(s, Pointers(s)[k]);
        var i: nat :| i < |s.chart.valuesFiles| && HasTable(s, i) && Pointers(s)[k] == FilePointer(s, i);
        FileReferenceLeads(s, scoped, i);
      }
    }
  }

  /** And so no reference dangles if the chart, where it is an ancestor, is not named `global`, has no `values.schema.json`, and
      lies above charts with plain names. */
  lemma NoDanglingReference(s: RelatedChart, scoped: seq<RelatedChart>, e: Emission)
    requires SelfFirst(s.chart, scoped) && e in Related(s)
    requires s.subScope != [] ==>
               s.chart.name != GLOBAL && s.chart.schemaFile.None? && PlainScope(s.subScope) && s.subScope[0] != GLOBAL
    ensures Leads(Generated(s.chart, scoped), e) && e.reference.document == s.chart.document
  {
    if s.subScope != [] {
      forall i: nat | i < |s.chart.valuesFiles| && HasTable(s, i) ensures EntryHasScope(s, i) {
        FileReferenceLeads(s, scoped, i);
        AncestorReference(s, scoped, i);
      }
    }
    ReferenceResolves(s, scoped, e);
  }

  // ----- charts for which one does -----

  const SUB: Values := map["sub" := Table(map[])]

  lemma SubFound(chart: Chart)
    requires chart.valuesFiles == [ValuesFile("values.yaml", SUB)]
    ensures HasTable(RelatedChart(chart, [], ["sub"]), 0)
  {
    assert !IsRangeKey("sub");
  }

  /** A parent with an empty `values.schema.json` and a table for its dependency: the reference to that table dangles. */
  lemma SchemaFileDangles(parent: Chart, s: RelatedChart, scoped: seq<RelatedChart>)
    requires parent.name == "parent" && parent.valuesFiles == [ValuesFile("values.yaml", SUB)] && parent.schemaFile == Some(ANYTHING)
    requires s == RelatedChart(parent, [], ["sub"]) && SelfFirst(parent, scoped)
    ensures exists e :: e in Related(s) && !Leads(Generated(parent, scoped), e)
  {
    SubFound(parent);
    FileReferenceExactly(s, scoped, 0);
    var e := FileReferenceMade(s, 0);
  }

  /** A parent named `global` with global values and a table for its dependency: its own definition is lost, and so is what the
      reference to that table is for. */
  lemma GlobalParentDangles(parent: Chart, s: RelatedChart, scoped: seq<RelatedChart>)
    requires parent.name == GLOBAL && parent.schemaFile.None?
    requires parent.valuesFiles == [ValuesFile("values.yaml", SUB[GLOBAL := Table(map[])])]
    requires s == RelatedChart(parent, [], ["sub"]) && SelfFirst(parent, scoped)
    ensures exists e :: e in Related(s) && !Leads(Generated(parent, scoped), e)
  {
    assert !IsRangeKey("sub");
    assert HasTable(s, 0);
    GlobalTakesOver(parent, parent.valuesFiles[0]);
    var e := MissingDangles(s, scoped, 0);
  }

  lemma GlobalTakesOver(chart: Chart, file: ValuesFile)
    requires chart.name == GLOBAL && chart.valuesFiles == [file] && GlobalTable(file.values) == Some(map[])
    ensures |OwnSchemas(chart)| == 1 && OwnSchemas(chart)[0].properties == map[]
  {
    assert AllGlobalSchemas(chart) == GlobalSchemas(chart, 0) + GlobalSchema(chart, file);
  }
}
