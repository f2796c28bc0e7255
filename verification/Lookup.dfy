/** What the context of a place in a template is, from the syntax tree and the variable definitions together. */
module Lookup {
  import opened Options
  import opened Contexts
  import opened Nodes
  import opened Meanings
  import opened Traversal
  import opened SymbolTables
  import opened Variables

  /** Looking an area up in the index and resolving the context found there; nothing is found for an area without one. */
  function ContextAt(table: Table, defs: Definitions, area: Area): Option<Fate> {
    if area in table.reversed then Some(ResolveVariables(defs, table.reversed[area], area)) else None
  }

  function TemplateTable(root: Node): Table
    requires WellFormed(root)
  {
    RecordAll(EMPTY, Meaning(root, FromDot([])))
  }

  /** No other context is recorded for the entry's area. */
  ghost predicate Alone(es: seq<Entry>, e: Entry) {
    forall f | f in es && f.area == e.area :: f.scope.path == e.scope.path
  }

  lemma {:induction false} AloneIsLast(es: seq<Entry>, e: Entry)
    requires e in es && Alone(es, e)
    ensures LastAt(es, e.area) == Some(RootStripped(e.scope.path))
    decreases |es|
  {
    var last := es[|es|-1];
    if last.area != e.area {
      var init := es[..|es|-1];
      assert es == init + [last] && e in init;
      AloneIsLast(init, e);
    }
  }

  /** An area leads back to the context that the template's meaning records there, with its variables resolved and the root `$`
      dropped; and an area for which nothing is recorded leads nowhere. */
  lemma LookupExactly(root: Node, defs: Definitions, area: Area)
    requires WellFormed(root)
    ensures ContextAt(TemplateTable(root), defs, area).None? <==> forall e | Marked(root, FromDot([]), e) :: e.area != area
    ensures var es := Meaning(root, FromDot([]));
            && (ContextAt(TemplateTable(root), defs, area).None? <==> forall e | e in es :: e.area != area)
            && forall e | Marked(root, FromDot([]), e) && e.area == area && Alone(es, e) ::
                 ContextAt(TemplateTable(root), defs, area) == Some(ResolveVariables(defs, RootStripped(e.scope.path), area))
  {
    var es := Meaning(root, FromDot([]));
    IndexesExactly(es, "", area);
    RecordedSomewhere(es, area);
    forall e ensures e in es <==> Marked(root, FromDot([]), e) {
      RecordedExactly(root, FromDot([]), e);
    }
    forall e | e in es && e.area == area && Alone(es, e)
      ensures ContextAt(TemplateTable(root), defs, area) == Some(ResolveVariables(defs, RootStripped(e.scope.path), area))
    {
      AloneIsLast(es, e);
    }
  }

  lemma {:induction false} RecordedSomewhere(es: seq<Entry>, area: Area)
    ensures LastAt(es, area).Some? <==> exists e :: e in es && e.area == area
    decreases |es|
  {
    if es != [] {
      var init, last := es[..|es|-1], es[|es|-1];
      assert es == init + [last];
      RecordedSomewhere(init, area);
      assert last in es;
      assert forall e | e in init :: e in es;
    }
  }

  /** What a path that is spelled out in some scope comes to: from the root what follows `$`; from a variable what the variable
      comes to, followed by the rest of the path; from the dot the dot's own path, followed by this one. */
  function Reading(defs: Definitions, s: Scope, path: Context, area: Area): Fate {
    if !IsVariable(path) then ResolveVariables(defs, RootStripped(s.path + path), area)
    else if path[0] == "$" then ResolveVariables(defs, Tail(path), area)
    else
      var head, rest := ResolveVariables(defs, [path[0]], area), ResolveVariables(defs, Tail(path), area);
      Followed(head, Tail(path), rest)
  }

  /** For every selector of a chain, wherever it stands in a template, the area of its field leads to what the path up to there
      comes to: through the traversal, the index and the resolution of variables together. */
  lemma ChainLookup(root: Node, defs: Definitions, at: seq<nat>, n: Node, s: Scope, m: Node)
    requires WellFormed(root) && WellFormed(n) && IsChain(n) && m in Links(n) && WellFormed(m)
    requires StandsIn(root, FromDot([]), at, s) && NodeAt(root, at) == Some(n)
    requires Alone(Meaning(root, FromDot([])), Entry(Place(s, PathOf(m)), Child(m, "field").value.area))
    ensures var area := Child(m, "field").value.area;
            ContextAt(TemplateTable(root), defs, area) == Some(Reading(defs, s, PathOf(m), area))
  {
    ChainMeaning(n, s);
    var path, area := PathOf(m), Child(m, "field").value.area;
    var e := Entry(Place(s, path), area);
    assert e in Meaning(n, s);
    PartRecorded(root, FromDot([]), at, s, e);
    RecordedExactly(root, FromDot([]), e);
    LookupExactly(root, defs, area);
    PlacedReading(defs, s, path, area);
  }

  lemma PlacedReading(defs: Definitions, s: Scope, path: Context, area: Area)
    ensures ResolveVariables(defs, RootStripped(Place(s, path).path), area) == Reading(defs, s, path, area)
  {
    if IsVariable(path) && path[0] != "$" {
      assert [path[0]] + Tail(path) == path;
      EvalAppend(ReplacementsAt(defs, area), defs.Keys, [path[0]], Tail(path), {});
    }
  }
}
