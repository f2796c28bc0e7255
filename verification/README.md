# helm-ls: verified models

Dafny models of four parts of helm-ls, and proofs of what those parts are for. `dafny verify dfyconfig.toml` checks
everything. `Options`, `Strings` and `Globals` hold what several parts share.

**Plato projection** (`Utf8`, `Positions`, `Utf16`, `Regions`, `Projection`, `Mapping`, `SyntaxSpan`). A template
with actions in `{{{ }}}` is turned into YAML or shell text by masking bytes in place. The diagnostics of a host-language
backend, given as line and UTF-16 column, are carried back to the template or withheld. Text is a sequence of bytes, decoded as Go does it
(section 3 of RFC 3629, an invalid byte being one U+FFFD of width 1). The key fact is that a byte below 0x80 is always its
own rune, so every line feed resynchronises the decoder and masking a multi-byte action moves columns only on its own lines.
`Utf16` defines both encodings of Unicode text apart from the decoder, and proves that columns count UTF-16 code units.

**Session protocol** (`Sessions`, `Server`, `Protocol`, `Invariants`, `RouteProofs`, `BackendProofs`, `Publication`,
`Freshness`, `Safety`, `Display`, `Requests`, `Attention`, `LostDocuments`, `StaleRuns`, `ForgottenRuns`, `Names`).
`Sessions` says what each critical section does to the state; the class in `Server` does it in place, on the maps, and each
of its methods is proved to do exactly that. `Protocol` lets editor requests, pending goroutines and backends take such steps
in any order the two locks allow. The theorems in `Safety` hold in every state of every run. `Display` says what the editor
is shown, `Requests` that the session holds what the editor asked for, and `Attention` and `LostDocuments` exactly which open
documents are forgotten after a run.

**Symbol table** (`Contexts`, `Nodes`, `Meaning`, `Traversal`, `Blocks`, `SymbolTable`, `Variables`, `Lookup`, `YamlPath`).
The visitor with its mutable context and stash is proved to record exactly what a pure semantics says, which passes the scope
of `.` down the tree; and that, in `Traversal`, to be exactly the marks of the nodes that stand in the tree, each at the
scope its surroundings give it. Variable substitution, one replacement at a time, is proved to do what a semantics of
contexts segment by segment says, for any definitions, and to end exactly unless it comes down to variables that only come
down to each other. `Lookup` puts both together: what the context of a place in a template is.

**Charts and schemas** (`ChartStore`, `StoreConsistency`, `LoadedTrees`, `ParentLoading`, `ChartQueries`, `ChartPaths`,
`ChartResolution`, `ValueFiles`, `ScopedValues`, `JsonPointer`, `Schemas`, `SchemaGenerator`, `SchemaReferences`,
`SchemaMeaning`, `SchemaSafety`). Loading a tree of charts, finding the charts that a values path concerns, listing the
related values files of a chart, and generating JSON schemas whose references into each other resolve by section 4 of RFC
6901. `SchemaMeaning` and `SchemaSafety` follow these references and say which values the schema of a chart accepts, without
speaking of how it is generated.

## Where the code does less than one might expect

Each of these is the code as it is. Where it says "exactly", both directions are proved, for all inputs.

- A version number that is reused after reopening a document can be answered from the old text. Results are fresh in every run
  in which no version names two texts (`Freshness.CurrentRouteIsFresh`); and for every document that is sent to a backend, and
  every other text, some run reuses the version and goes stale (`StaleRuns.ReusedVersionGoesStale`; `StaleRuns.PlainIsSent`
  shows that there are such documents).
- An open document can be forgotten: it waits for a result, and neither work is pending for it nor does any backend have it open.
  This happens when sending another document to the same backend fails, since that stops the backend and leaves its other
  routes (`ForgottenRuns.FailedSendForgets`, `ForgottenRuns.SomeRunForgets`), when another document of the same file takes its
  route over (`ForgottenRuns.SharedFileForgets`), and at the final shutdown, and lasts until the document is synced again. After
  every run, a waiting document is served exactly unless this has happened to it (`LostDocuments.ForgottenExactly`), so in a run
  without such steps none is forgotten (`LostDocuments.NoDocumentForgotten`).
- The body of a `with` or `range` over a field or a chain of selectors is read at what that denotes, for a `range` at its
  elements. Over a bare variable, and over the dot of a `range`, it is read in the surrounding context, exactly in these cases
  (`Blocks.BodyReadAt`): in `{{ range $list }}{{ .a }}{{ end }}` the field is recorded as one of the surrounding dot
  (`Blocks.BareRangeAtRoot`).
- Right after an unfinished selector, `x.`, the dot is recorded at the operand's path, exactly unless the operand is a bare
  variable: `{{ $x. }}` records it in the surrounding scope (`Meanings.UnfinishedDot`, `Meanings.VariableDotAtRoot`).
- The value variable of a `range` is an element of what is ranged over, exactly unless that comes down to a variable as its
  last segment, which is looked up under its name with `[]` appended and not found (`Variables.RangeValueResolves`,
  `Variables.BareRangeNotFound`).
- A variable resolves without end exactly when it comes down to a set of variables that only come down to each other
  (`Variables.EndlessExactly`), as a variable defined through itself does (`Variables.SelfReferenceLoops`).
- The first definition that covers a place is taken, also when a narrower one follows (`Variables.FirstDefinitionWins`).
- A YAML path is read back, however its segments are written, exactly unless its last segment is empty, and without the leading
  `$.` also unless its first is written as a bare `$`, which is dropped (`YamlPath.PrintRoundTrip`, `YamlPath.RootlessRoundTrip`).
- A dependency that lies in the cache folder, not unpacked under `charts`, has no parent: nothing above it is found from there
  (`LoadedTrees.ParentExactly`, `LoadedTrees.CachedKnowsNothing`).
- Adding a chart leaves parents and dependencies in agreement exactly when it fits the store: the parent it finds knows it, the
  chart that depends on it calls it by its name, and no chart stays behind below one that is loaded again
  (`StoreConsistency.LoadingKeepsConsistent`).
- With a `values.schema.json` in an ancestor, the reference to values file `i` leads into the entry before: to the schema of file
  `i - 1` at the sub-scope, or for the first into the schema file itself, and nowhere exactly if there is nothing there
  (`SchemaReferences.FileReferenceExactly`, `SchemaReferences.ResolvesExactly`, `SchemaReferences.SchemaFileDangles`).
- A chart named `global` that has global values loses its own definition (`SchemaReferences.OwnDefinitionKept`), and references to
  it may dangle (`SchemaReferences.GlobalParentDangles`).
- A values file satisfies the schema generated from it exactly if the elements of each of its arrays are shaped like the first
  (`Schemas.GeneratedSchemaAcceptsItsValues`, `Schemas.MixedListRejected`).

## Model

| member | source | states |
|---|---|---|
| Utf8.AsciiIsBoundary | internal/plato/syntax.go:80-87 | a byte below 0x80 begins and ends a rune wherever decoding started, so decoding resynchronises there |
| Positions.PositionOf | internal/plato/syntax.go:75-89 | the loop computes the position that reading rune by rune gives, for every offset |
| Positions.PositionByLines | internal/plato/syntax.go:75-89 | that position is the number of line feeds before the offset and the width of its line up to it, for every byte string and offset, invalid bytes included |
| Positions.PositionsIncrease | internal/plato/syntax.go:75-89 | positions strictly increase along rune boundaries |
| Utf16.EncodedIsRead | internal/plato/syntax.go:80-87 | the decoder reads the UTF-8 encoding of any scalar value back, by the table of RFC 3629, whatever follows |
| Utf16.OthersAreErrors | internal/plato/syntax.go:80-87 | anything that is no encoded scalar value reads as one U+FFFD of width 1 |
| Utf16.CodeUnitsRoundTrip | internal/plato/syntax.go:85-85 | the code units of a scalar value, one or a surrogate pair, decode to it again, by section 2 of RFC 2781 |
| Utf16.ColumnsAreUtf16 | internal/plato/syntax.go:75-89 | behind any Unicode text the position is the number of its line feeds and the number of UTF-16 code units of its last line |
| Utf16.ColumnOfLine | internal/plato/syntax.go:80-87 | so on one line the column is the length of its UTF-16 text |
| Utf16.ColumnsAreFound | internal/plato/projection.go:167-188 | and that position denotes that place |
| Positions.FitsUint32 | internal/plato/syntax.go:75-89 | on texts below 2^32 bytes no 32-bit counter wraps |
| Positions.ByteOffset | internal/plato/projection.go:167-188 | succeeds exactly when some rune boundary has the position, and returns that boundary |
| Positions.OffsetRoundTrip | internal/plato/projection.go:167-188 | `byteOffset` undoes `position` on every rune boundary |
| Positions.InsideSurrogatePair | internal/plato/projection.go:167-188 | a column inside a surrogate pair denotes no offset |
| Positions.ClampEndOfLine | internal/plato/projection.go:222-242 | succeeds exactly when the line exists and the column is at or past its UTF-16 width, and returns the end of that line |
| Positions.ClampAgrees | internal/plato/projection.go:194-201 | where `byteOffset` and the clamp both succeed they agree, which makes them the clamping of LSP 3.17 "Position" |
| Regions.RegionWalk.Visit | internal/plato/parser.go:30-43 | the walk appends the literals below a node in order and marks control flow outside literals |
| Regions.TemplateRegions | internal/plato/parser.go:17-47 | the spans are the literals of the tree; unstable means a parse error or a control-flow action outside literal text |
| Regions.LiteralsSorted | internal/plato/parser.go:30-46 | literals of a well-formed tree are sorted, disjoint and inside the tree |
| Regions.LiteralsExactly | internal/plato/parser.go:30-43 | a span is among the literals exactly if some node of a literal kind, below no other such node, has it |
| Regions.UnstableExactly | internal/plato/parser.go:30-43 | the tree is unstable exactly if some node of a control-flow kind stands below no literal |
| Projections.GapsTile | internal/plato/projection.go:31-54 | literals and action spans tile the source: each offset is in exactly one of them |
| Projections.MaskAction | internal/plato/projection.go:39-51 | blanks one action in place and puts the placeholder on its first byte that held something |
| Projections.MaskActions | internal/plato/projection.go:28-54 | the loop masks exactly the gaps between literals and computes `safe` |
| Projections.MaskSelectors | internal/plato/projection.go:88-91 | masks candidates in place and records a one-byte synthetic span for each |
| Projections.SelectorsMasked | internal/plato/projection.go:81-155 | exactly the candidates that hold a `$` become `_` |
| Projections.MakeProjection | internal/plato/projection.go:23-71 | builds the projection in place, and none for another host language |
| Projections.ProjectionBytes | internal/plato/projection.go:28-69 | byte by byte: in actions only spaces, `x`, CR and LF, with CR and LF as in the source; in literals the source, but for selected `$`; every difference lies in a synthetic span |
| Projections.PlaceholderAtStart | internal/plato/projection.go:44-51 | an `x` stands for the first byte of exactly those actions that open with three braces and, like all before them, do not trim, are no comment and hold no `ToYAML`, in a stable tree; and for no other byte |
| Projections.SafeExactly | internal/plato/projection.go:28-68 | a projection is safe exactly when the tree is stable, no action trims, is a comment or holds `ToYAML`, and no block scalar or `<<` could take a synthetic byte |
| Projections.ProjectionFaithful | internal/plato/projection.go:23-71 | every projection has the source's length and line breaks and differs only inside recorded synthetic spans |
| Projections.ProjectionKeepsLines | internal/plato/projection.go:39-43 | masking moves no offset to another line, even inside a masked multi-byte rune |
| Mapping.MapDiagnostic | internal/plato/projection.go:190-220 | accepts exactly the ranges that denote a part of one literal on lines without synthetic bytes, and returns their positions in the source |
| Mapping.AcceptedLinesSame | internal/plato/projection.go:212-217 | the line test means that source and projection agree on every line of the range |
| Mapping.MappingSound | internal/plato/projection.go:190-220 | an accepted range lies in one literal, source and projection agree on all its lines, the start is the reported one, the end is the reported one or the end of that same line |
| Mapping.TreeMappingSound | internal/plato/projection.go:23-71 | the same from the syntax tree on: walk, projection and mapping together; nothing is mapped for a tree with an error or with control flow outside literal text |
| Mapping.MappingComplete | internal/plato/projection.go:190-220 | nothing is withheld without need: in a safe projection a range that is part of a literal, on lines without synthetic bytes, comes back as it is |
| Mapping.MappingClamps | internal/plato/projection.go:190-220 | and if its end lies past the line, with that end taken back to the end of the line |
| SyntaxSpans.SyntaxSpan | internal/plato/syntax.go:38-63 | blames the last action opened before the reported line that is still open there, else the first that follows, and ends behind its closing braces or with the line |
| SyntaxSpans.SpanIsRange | internal/plato/syntax.go:63-73 | the reported range denotes exactly that span, and is ordered |
| Names.VirtualNameInjective | internal/plato/backend.go:273-273 | the virtual name determines file, version and language, as strings |
| Names.KeyInjective | internal/plato/backend.go:258-258 | the backend key determines the language and, with the executable, the root, even if the root holds a vertical bar |
| Servers.Server.DidOpen | internal/plato/server.go:132-141 | whole new state: document stored, cached result dropped, diagnostics published |
| Servers.Server.DidChange | internal/plato/server.go:143-161 | whole new state; a version that is not newer changes nothing |
| Servers.Server.DidSave | internal/plato/server.go:163-170 | republishes an open document |
| Servers.Server.DidClose | internal/plato/server.go:172-182 | document and cached result removed, diagnostics cleared |
| Servers.Server.DidChangeConfiguration | internal/plato/server.go:184-197 | new settings and epoch, cache emptied, every open document republished once in some order |
| Servers.Server.DidChangeWorkspaceFolders | internal/plato/server.go:199-222 | new folders and epoch, cache emptied, every open document republished once in some order |
| Servers.Server.Publish | internal/plato/server.go:233-259 | shows syntax diagnostics, then host diagnostics of the document's own version |
| Servers.Server.PublishDiagnostics | internal/plato/backend.go:63-87 | stores and shows mapped diagnostics only through a current route; otherwise nothing changes |
| Servers.Server.InstallRoute | internal/plato/backend.go:274-288 | deletes every route of the source and key and adds the new one, only if version and epoch still hold |
| Servers.Server.SendProjection | internal/plato/backend.go:289-315 | closes the superseded document, opens the new one, or on failure reports, unregisters and stops the backend |
| Servers.Server.BackendGone | internal/plato/backend.go:318-343 | a lost backend is unregistered and stopped, its routes removed, and those routes reported |
| Servers.Server.HostFailure | internal/plato/backend.go:345-354 | caches and shows a failure notice for the current version only |
| Servers.Server.CloseHost | internal/plato/backend.go:356-382 | removes one route of a closed document and closes it in its backend; an open document is left alone |
| Servers.Server.ReconfigureBackends | internal/plato/backend.go:384-401 | stops all backends, empties both maps, returns the open documents |
| Servers.Server.CloseBackends | internal/plato/backend.go:403-409 | stops every registered backend and nothing else |
| Publication.VersionsNeverDecrease | internal/plato/server.go:233-259 | published versions never decrease within one open session, with the exact condition for the unsigned number on the wire |
| Publication.NothingAfterClose | internal/plato/server.go:172-182 | between the clear on close and a publication the document was reopened |
| Freshness.CurrentRouteIsFresh | internal/plato/backend.go:224-288 | a current route was built from the text the document has now, if no version named two texts |
| StaleRuns.ReusedVersionGoesStale | internal/plato/backend.go:356-363 | for every document that is sent to a backend and every other text, a run that reuses the version ends with a current route built from the text the document no longer has |
| Safety.ReachableGood | internal/plato/backend.go:224-401 | every invariant of routes, backends, cache and log holds after every run |
| Safety.NoStaleResult | internal/plato/backend.go:63-87 | over every interleaving a backend result that changes anything, even only what is shown, names the current version or none and came through a route of current version and epoch, built from exactly the current text if no version named two texts |
| Safety.ReconfigurationComplete | internal/plato/backend.go:384-401 | with no reconfiguration pending every route has the current epoch and is its document's only one, every registered backend has the current settings, and routes of closed documents are about to go |
| Safety.RouteServedByItsOwn | internal/plato/backend.go:258-271 | the backend found by a route's key runs the route's language, executable and workspace root |
| Safety.RoutesAreUnique | internal/plato/backend.go:273-294 | the superseded route does not depend on map order, and no superseded document is left open |
| Safety.BackendsConserved | internal/plato/backend.go:136-194 | every backend ever started is stopped, or registered under its own key and watched |
| Safety.PublicationSafe | internal/plato/server.go:224-259 | over a whole run: cached entries are current, versions do not decrease in a session, nothing is published after a close until reopening |
| Safety.ShownTextIsCurrent | internal/plato/backend.go:72-86 | every cached host diagnostic is a failure notice, or a backend published it about this version and it was carried back soundly through the projection of the text the document has now: it lies in one literal, on lines that projection leaves unchanged |
| Safety.MapAllExactly | internal/plato/backend.go:72-86 | of a backend's diagnostics exactly those that can be placed are kept, in order, each with its message and the source it named, or the language |
| Safety.LateReportIgnored | internal/plato/backend.go:318-401 | what still comes in about the documents of a lost backend, or after reconfiguring, changes nothing |
| Display.EditorShowsCurrent | internal/plato/server.go:233-259 | in every state of every run the last the editor was sent of an open document is, under its version, the syntax diagnostics of its current text, settings and folders followed by what is cached for it, of which the previous results hold; of any other document nothing, or a clear |
| Display.ReportReachesEditor | internal/plato/backend.go:63-87 | what a backend reports through a current route is shown, behind the syntax diagnostics: all that can be placed, mapped through the projection of the current text |
| Display.SavePublishes | internal/plato/server.go:163-170 | saving an open document publishes it once more, up to date |
| Requests.SessionAsAsked | internal/plato/server.go:132-222 | after every run the open documents with their texts and versions, the settings and the folders are what the editor's requests alone come to: the last opening or newer change with its last text, the last settings, and folders removed and added one for one |
| Requests.FirstRemoved | internal/plato/server.go:199-222 | of a folder that is removed the first occurrence goes, and nothing else |
| Attention.SkipsExactly | internal/plato/backend.go:224-248 | a document is left alone exactly if it is not open, neither its name nor its text is of a language that has a backend, none is set for it, or its own syntax is not in order |
| LostDocuments.ForgottenExactly | internal/plato/backend.go:224-409 | after every run each open document has work pending, is in the running section, has a running backend with the projection of its current version open, shows a result of that version, or is not meant for a backend, or else was struck and not read since; and one that waits for its result is served exactly unless it was struck: by a failed send of another document to its backend, by another document of its file, or by the shutdown |
| LostDocuments.NoDocumentForgotten | internal/plato/backend.go:224-382 | after a run in which nobody is struck no document is forgotten: with nothing left to do, each is served, or shows a result, or is not meant for a backend |
| LostDocuments.ServedFromCurrentText | internal/plato/backend.go:224-315 | a backend that serves a document runs the executable for its language in its root under the current settings, and has open under the document's name exactly the safe projection of the text the document has now |
| LostDocuments.UnmappableIsReported | internal/plato/backend.go:249-257 | a document whose text has no safe projection is sent to no backend, and in the end shows a notice of failure |
| ForgottenRuns.FailedSendForgets | internal/plato/backend.go:309-328 | for any two documents that share a backend, a run that ends with no backend, nothing pending, and the first document with its route and no result |
| ForgottenRuns.SharedFileForgets | internal/plato/backend.go:273-288 | of two documents of one file the second takes over the first's route, which is then forgotten |
| Contexts.FormatRoundTrip | internal/lsp/symboltable/template_context.go:10-48 | reading a formatted context back gives it again exactly when no segment holds a dot and the first is not empty |
| YamlPath.TemplateContextFromYamlPath | internal/lsp/symboltable/template_context.go:58-107 | the loops compute the reader's result |
| YamlPath.PrintRoundTrip | internal/lsp/symboltable/template_context.go:58-107 | the reader inverts the printer, up to trailing indexes, exactly when the last segment is not empty: for segments of any characters, each written in quotes or bare with backslashes |
| YamlPath.RootlessRoundTrip | internal/lsp/symboltable/template_context.go:58-107 | without the leading `$.` the same, exactly when also the first segment is not written as a bare `$` |
| YamlPath.RootIsEmpty | internal/lsp/symboltable/template_context.go:58-64 | `$` is the empty context |
| YamlPath.ConvertsExactlyIndexes | internal/lsp/symboltable/template_context.go:109-116 | a trailing `[n]` becomes `[]`, and nothing else is changed |
| Traversal.RecordedExactly | internal/lsp/symboltable/visitor.go:20-96 | for every well-formed tree: an entry is recorded exactly if some dot or field, on a path of children from the root, makes it at the scope that the blocks and selectors on that path give; so every node is reached and nothing else is recorded |
| Meanings.Relocates | internal/lsp/symboltable/visitor.go:20-96 | moving a fragment under a base prefixes exactly the contexts that hang off the dot and leaves those of variables |
| Meanings.BodyMoves | internal/lsp/symboltable/visitor.go:30-67 | the body of `with` or `range` is the body read at the root, moved; over a selector that begins with a variable it does not depend on the surroundings, and over a dot or a bare variable it is read in the surrounding context |
| Blocks.BodyReadAt | internal/lsp/symboltable/symbol_table_template_context.go:87-105 | for every tree, the body of a `with` or `range` over a dot, field, chain or variable is read at what that denotes, with the suffix for elements, exactly if it is a field or a chain, or the dot of a `with`, or if the surrounding scope is that already |
| Blocks.BareRangeAtRoot | internal/lsp/symboltable/symbol_table_template_context.go:87-105 | in `range $list` the field `.a` is recorded as one of the root, and nothing under `$list` |
| Meanings.ChainMeaning | internal/lsp/symboltable/visitor.go:67-83 | along a selector chain of any length each field is recorded at the path so far and each dot at the path before it |
| Meanings.UnfinishedDot | internal/lsp/symboltable/symbol_table_template_context.go:53-105 | the dot of an unfinished selector is recorded at its operand's path, except exactly after a bare variable |
| Meanings.VariableDotAtRoot | internal/lsp/symboltable/symbol_table_template_context.go:53-105 | `{{ $x. }}` records its dot at the root and nothing under `$x` |
| SymbolTables.ContextVisitor.Enter | internal/lsp/symboltable/symbol_table_template_context.go:53-74 | records the node's own context, and sets the context aside for a selector on a variable |
| SymbolTables.ContextVisitor.Exit | internal/lsp/symboltable/symbol_table_template_context.go:76-85 | undoes what entering did |
| SymbolTables.ContextVisitor.EnterContextShift | internal/lsp/symboltable/symbol_table_template_context.go:87-105 | the context becomes the shifted scope |
| SymbolTables.ContextVisitor.ExitContextShift | internal/lsp/symboltable/symbol_table_template_context.go:107-119 | context and stash are back to what they were before the shift |
| SymbolTables.ContextVisitor.Visit | internal/lsp/symboltable/visitor.go:20-96 | restores context and stash exactly and records exactly what the scope-passing semantics gives |
| SymbolTables.ParseTree | internal/lsp/symboltable/symbol_table.go:85-97 | the table of a whole template is the semantics at the root context |
| SymbolTables.SymbolTable.AddTemplateContext | internal/lsp/symboltable/symbol_table.go:34-45 | both indexes after one entry, with `$` stripped |
| SymbolTables.SymbolTable.GetTemplateContextRanges | internal/lsp/symboltable/symbol_table.go:47-49 | every place recorded for a context, and none for a context that does not occur |
| SymbolTables.IndexesExactly | internal/lsp/symboltable/symbol_table.go:34-58 | one index holds every occurrence in order, the other the last context of each range |
| SymbolTables.IndexesAgree | internal/lsp/symboltable/symbol_table.go:34-58 | a range's context leads back to the range |
| Variables.FindDefinitionForRange | internal/lsp/symboltable/symbol_table_variables.go:97-104 | the loop finds the first definition whose scope covers the range |
| Variables.SelectedExactly | internal/lsp/symboltable/symbol_table_variables.go:97-104 | the definition found is the first within whose scope the area begins and ends, and none is found exactly if there is no such |
| Variables.FirstDefinitionWins | internal/lsp/symboltable/symbol_table_variables.go:27-29 | a definition added later never takes over a range that has one |
| Variables.VariableTable.AddVariableDefinition | internal/lsp/symboltable/symbol_table_variables.go:27-29 | appends to the definitions of the symbol and leaves the others |
| Variables.EndsExactly | internal/lsp/symboltable/symbol_table_template_context_variables.go:9-33 | replacing heads one at a time ends exactly when the segment-by-segment semantics does, with the same outcome, for any replacements |
| Variables.ResolutionEnds | internal/lsp/symboltable/symbol_table_template_context_variables.go:9-33 | the same for the definitions of a template, whatever text they hold |
| Variables.EndlessExactly | internal/lsp/symboltable/symbol_table_template_context_variables.go:9-33 | resolution does not end exactly when the context comes down to a set of variables that only come down to each other |
| Variables.EndsSoon | internal/lsp/symboltable/symbol_table_template_context_variables.go:9-33 | where variables only stand at heads, a resolution that ends takes at most one replacement for each variable |
| Variables.RankedEnds | internal/lsp/symboltable/symbol_table_template_context_variables.go:9-33 | definitions that refer only to lower ranks resolve every context |
| Variables.Substitutes | internal/lsp/symboltable/symbol_table_template_context_variables.go:30-32 | a variable resolves to what its definition followed by the rest resolves to |
| Variables.ResolvedHead | internal/lsp/symboltable/symbol_table_template_context_variables.go:9-33 | a resolved context does not begin with a variable |
| Variables.RangeValueResolves | internal/lsp/symboltable/symbol_table_template_context_variables.go:35-41 | the value variable of a range resolves to an element of what the ranged path resolves to, exactly unless that comes down to a variable as its last segment |
| Variables.BareRangeNotFound | internal/lsp/symboltable/symbol_table_template_context_variables.go:35-41 | in `range $i, $v := $list` the variable `$v` is not found, although `$list` is |
| Variables.SelfReferenceLoops | internal/lsp/symboltable/symbol_table_template_context_variables.go:9-33 | a definition for which resolution never ends |
| Lookup.LookupExactly | internal/lsp/symboltable/symbol_table.go:51-58 | for a whole template, an area leads to the context that the one node marking it gives, with variables resolved and `$` dropped, and nowhere exactly if no node marks it |
| Lookup.ChainLookup | internal/lsp/symboltable/symbol_table.go:51-58 | the field of any selector in a chain that stands anywhere in a template leads to what its path comes to: the variable's own resolution followed by the rest, what follows `$`, or the path from the dot |
| ChartStores.DependencyUriInjective | internal/charts/chart_dependecies.go:10-19 | the directory of a dependency determines its parent's directory and its name |
| ChartStores.ChartStore.AddChart | internal/charts/chart_store.go:40-44 | stores the chart and its whole dependency tree |
| ChartStores.LoadedHas | internal/charts/chart_store.go:99-106 | every chart of the tree is stored at its directory |
| ChartStores.LoadedOnly | internal/charts/chart_store.go:99-106 | nothing else is stored |
| ChartStores.LoadedKeeps | internal/charts/chart_store.go:99-106 | charts outside the tree are untouched |
| StoreConsistency.LoadedElse | internal/charts/chart_store.go:40-106 | so are stored charts in the directory tree that are not in the dependency tree |
| StoreConsistency.LoadingKeepsConsistent | internal/charts/chart_store.go:40-106 | adding a chart to any consistent store keeps parents and dependencies in agreement exactly when the chart fits |
| StoreConsistency.FilledConsistent | internal/charts/chart_store.go:40-106 | over any sequence of additions the store is consistent throughout exactly when each chart fits as it is added |
| StoreConsistency.LoadedConsistent | internal/charts/chart_store.go:40-106 | a tree loaded into an empty store is consistent |
| ChartStores.ChartStore.GetChartForURI | internal/charts/chart_store.go:63-82 | finds a stored chart, or loads the one on the disk with its dependencies |
| ChartStores.ChartStore.GetParentChart | internal/charts/parent_chart.go:22-32 | the same for the parent a chart was given |
| ValueFiles.ResolveValueFiles | internal/charts/chart_values_files.go:19-92 | the recursion over one shared map, which loads the parents it misses, computes the walk and the store it leaves |
| ValueFiles.LoadingMakesNoDifference | internal/charts/parent_chart.go:22-32 | whatever part of the charts is stored when a query is asked, it finds what it would find with everything on the disk stored |
| ValueFiles.WholeExactly | internal/charts/chart_store.go:63-82 | there is such a whole exactly when the disk gives a directory the same chart by itself and with any chart above it |
| ValueFiles.LoadedDependenciesStored | internal/charts/chart_store.go:99-106 | adding a chart stores its dependencies with it, as the previous result needs |
| ValueFiles.QueryFindsExactly | internal/charts/chart_values_files.go:19-92 | so the query finds exactly the wanted charts with their selectors, whatever was stored before |
| ChartQueries.WalkLooksAround | internal/charts/chart_values_files.go:30-92 | in any store the walk ends, and everything it found has been looked around from |
| ChartResolution.ResolvesExactly | internal/charts/chart_values_files.go:19-92 | exactly the charts on the path that start and query spell out are found, each with its one selector, below a `global` all charts, for a global query all charts of the tree |
| ChartResolution.SelectorCompletesPath | internal/charts/chart_values_files.go:19-92 | without `global`: found means that the chart's path is a prefix of start path and query, and path and selector together are that path |
| ScopedValues.GetScopedDependencies | internal/charts/chart_values_scoped.go:65-92 | the loops build the descendants in order |
| LoadedTrees.ParentExactly | internal/charts/parent_chart.go:14-20 | a dependency's parent is its chart exactly if it is unpacked and the chart is on disk, and else none |
| LoadedTrees.UnpackedKnowsTop | internal/charts/chart_store.go:99-106 | in a tree loaded from disk, every descendant that is unpacked all the way finds the topmost chart, and the names down from it |
| LoadedTrees.CachedKnowsNothing | internal/charts/parent_chart.go:14-20 | a dependency in the cache folder finds nothing above it |
| LoadedTrees.UnnamedIsFound | internal/charts/chart.go:89-94 | a chart loaded from where a dependency lies is found from its parent under its own name, also when it only goes by its directory |
| ParentLoading.GetScopedParents | internal/charts/chart_values_scoped.go:33-63 | builds the ancestors, nearest first, and leaves in the store those that had to be loaded |
| ParentLoading.AncestorsListed | internal/charts/chart_values_scoped.go:33-63 | whatever was stored before, every ancestor up to the first chart without a parent is listed once, as it was stored or else as it is on the disk, under the names that lead down from it; all are stored afterwards |
| ParentLoading.StoredParentsSuffice | internal/charts/parent_chart.go:22-32 | where all parents are stored nothing is loaded and the ancestors are those the store gives |
| ParentLoading.LoadedParentsStored | internal/charts/chart_store.go:40-106 | adding a chart whose parent is stored leaves all parents stored |
| ParentLoading.GetScopedValuesFiles | internal/charts/chart_values_scoped.go:24-31 | the chart itself, then its descendants in the store as it was, then its ancestors |
| ScopedValues.ScopedExactly | internal/charts/chart_values_scoped.go:24-92 | the chart, each stored descendant and each ancestor exactly once; each scope leads down to its chart, each sub-scope from its chart down to this one |
| JsonPointers.EscapeRoundTrip | internal/jsonschema/chart_json_schema.go:252-255 | decoding by RFC 6901 undoes `escapeJSONPointer`, and an escaped token holds no slash |
| JsonPointers.PointerRoundTrip | internal/jsonschema/chart_json_schema.go:103-124 | a written pointer is read back as its tokens |
| Schemas.GenerateSchemaType | internal/jsonschema/generator.go:28-62 | the schema inferred from a value |
| Schemas.GenerateProperties | internal/jsonschema/generator.go:16-25 | one described property for each key |
| Schemas.AcceptsExactlyShaped | internal/jsonschema/generator.go:28-62 | a generated schema accepts exactly the values shaped like its model |
| Schemas.GeneratedSchemaAcceptsItsValues | internal/jsonschema/generator.go:3-25 | a values file satisfies its own schema exactly when its arrays are uniform |
| Schemas.MixedListRejected | internal/jsonschema/generator.go:46-55 | a list of a number and a text is not |
| Schemas.FirstElementFound | internal/util/values.go:94-132 | a key with brackets goes on from the first element of its list |
| SchemaGenerators.NestSchemaInScopes | internal/jsonschema/chart_json_schema.go:231-244 | the loop nests the schema under its scopes |
| SchemaReferences.NestReached | internal/jsonschema/chart_json_schema.go:231-244 | following the scopes through the nesting reaches the schema |
| SchemaReferences.PathReached | internal/util/values.go:94-113 | a path leads somewhere in the generated schema exactly when it does in the values, and then to what was generated there |
| SchemaReferences.DefaultGiven | internal/jsonschema/generator.go:16-44 | at the path of a value the schema carries the description, and a text, number or flag as its default |
| SchemaGenerators.SchemaGenerator.GenerateSchemaForCurrentChart | internal/jsonschema/chart_json_schema.go:81-96 | the chart's own definition, in the order of its files, and its global schemas |
| SchemaGenerators.SchemaGenerator.GenerateSchemaForRelatedChart | internal/jsonschema/chart_json_schema.go:98-149 | the references made for a related chart, in order |
| SchemaGenerators.SchemaGenerator.Generate | internal/jsonschema/chart_json_schema.go:53-79 | the whole generated document |
| SchemaReferences.DescendantReference | internal/jsonschema/chart_json_schema.go:98-132 | the reference to a dependency leads to the definition that joins all its values files |
| SchemaReferences.AncestorReference | internal/jsonschema/chart_json_schema.go:103-132 | each values file with a table at the sub-scope gets a reference, which leads to the schema generated from that table |
| SchemaReferences.PointersExactly | internal/jsonschema/chart_json_schema.go:103-116 | a reference is made for exactly the values files that hold a table at the sub-scope |
| SchemaReferences.FileReferenceExactly | internal/jsonschema/chart_json_schema.go:83-114 | where the reference for an ancestor's file leads, and when it leads nowhere: with a `values.schema.json` to the file before, or into the schema file itself |
| SchemaReferences.ResolvesExactly | internal/jsonschema/chart_json_schema.go:98-149 | all references to a related chart resolve exactly when each file with a table at the sub-scope has that sub-scope in the entry of its number |
| SchemaReferences.GlobalReferenceMade | internal/jsonschema/chart_json_schema.go:134-149 | a global reference is made exactly when the other schema defines global values |
| SchemaReferences.GlobalReferenceResolves | internal/jsonschema/chart_json_schema.go:134-195 | and it leads there |
| SchemaReferences.OwnReferencesResolve | internal/jsonschema/chart_json_schema.go:185-213 | references into the document itself resolve |
| SchemaReferences.OwnDefinitionKept | internal/jsonschema/chart_json_schema.go:185-202 | a chart's definition survives unless it is named `global` and has global values |
| SchemaReferences.NoDanglingReference | internal/jsonschema/chart_json_schema.go:98-149 | every reference to a related chart resolves in the schema generated for that chart |
| SchemaReferences.SchemaFileDangles | internal/jsonschema/chart_json_schema.go:83-114 | a chart with a `values.schema.json` whose reference dangles |
| SchemaReferences.GlobalParentDangles | internal/jsonschema/chart_json_schema.go:185-202 | a chart named `global` for which a reference dangles |
| SchemaMeanings.NestAccepts | internal/jsonschema/chart_json_schema.go:231-244 | a nested schema asks of values exactly what the schema asks of what they hold at the scopes, if they hold anything there |
| SchemaMeanings.DefinitionAccepts | internal/jsonschema/chart_json_schema.go:81-96 | the definition of a chart accepts exactly what its `values.schema.json` accepts and what is shaped like each of its values files, global tables left aside |
| SchemaMeanings.DocumentAcceptsExactly | internal/jsonschema/chart_json_schema.go:53-195 | with its references followed, the generated document accepts exactly the tables that fit the chart itself, at its scope each descendant, at the root each ancestor's tables for the chart, and under `global` the global values of each |
| SchemaSafety.FilledIsSane | internal/charts/chart_store.go:40-106 | every store filled by adding charts that fit is one for which the next result holds |
| SchemaSafety.NoSchemaReferenceDangles | internal/jsonschema/chart_json_schema.go:53-149 | over a whole store of charts no reference from one generated schema to another dangles |
| SchemaSafety.SchemaAcceptsExactly | internal/jsonschema/chart_json_schema.go:53-195 | over a whole store: the schema of a chart, with every other chart's schema at hand, accepts exactly the tables that fit the chart, each stored descendant at the path that leads down to it, and each ancestor's tables at the path that leads down from it, with their global values |

## Left out

- Tree-sitter, `text/template`, regular expressions and YAML decoding: trees, spans, match positions and decoded values are inputs. Of the schema selectors only the masking of the chosen `$` is modelled.
- The file system, workspace discovery and file classification are pure functions of their arguments; `Initialize` is the choice of an initial state.
- Subprocess I/O, JSON-RPC framing, timeouts, progress messages and errors in writing to the editor. A backend call either succeeds or fails, as the step says.
- Positions and lengths are unbounded; `Positions.FitsUint32` says when the original's 32-bit counters agree. The 64-bit epoch does not wrap here.
- Protocol.Reachable: sections that only `syncMu` protects are single steps, since nothing else reads that state; where `mu` is taken several times under `syncMu`, each time is a step of its own.
- Safety.NoStaleResult: does not cover failure notices, because `hostFailure` is guarded by version only and not by epoch.
- Safety.ReconfigurationComplete: does not say that a route has a live backend; exactly when it does is `LostDocuments.ForgottenExactly`.
- Diagnostic severities, codes and related information are not modelled; a diagnostic is its range, source and message.
- The visitors for includes and variables, which only share the traversal, and hover, completion and other readers of the symbol table.
- Nodes.WellFormed: assumes the children and leading characters that the grammar guarantees; nodes that error recovery leaves incomplete are not modelled.
- ChartResolution.ResolvesExactly: assumes that no chart is named `global`; for other stores `ChartQueries.WalkLooksAround` is what is proved.
- `SchemaSafety` reads related charts off a store; where not all parents are stored, `ParentLoading.AncestorsListed` says what is listed.
- The disk does not change, chart names are single path segments, and `uri.File` is the identity on directories. `SetRootURI` and the callback after adding a chart are not modelled.
- Schemas.PathLookup: a key with `[]` over a mapping, where the original takes any entry, yields nothing here.
- SchemaReferences.NoDanglingReference: assumes for ancestors that there is no `values.schema.json`; when references resolve with one is `SchemaReferences.ResolvesExactly`. Fragments are not percent-encoded, as in the original.
- SchemaSafety.SchemaAcceptsExactly: makes the same assumptions, and that every document is found under its own name. What references inside a `values.schema.json` accept is left open: the result holds whatever they accept. Of the keywords such a file may hold, those of `Schemas.Schema` are modelled.
- The schema cache, whose nested waits need not end, `IndexToPosition`, `PositionToIndex` and `GetPositionOfNode`.
- Loading configuration anew (`SetValuesFilesConfig`, `ReloadValuesFile`), documentation tables and string helpers would only add easy members.
