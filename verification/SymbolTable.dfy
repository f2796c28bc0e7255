/** The index of template contexts, and the visitor that fills it while it tracks the current context. */
module SymbolTables {
  import opened Options
  import opened Contexts
  import opened Nodes
  import opened Meanings

  datatype Table = Table(contexts: map<string, seq<Area>>, reversed: map<Area, Context>)

  const EMPTY := Table(map[], map[])

  /** The variable `$` stands for the root and is dropped. */
  function RootStripped(t: Context): Context {
    if t != [] && t[0] == "$" then Tail(t) else t
  }

  function AreasAt(table: Table, key: string): seq<Area> {
    if key in table.contexts then table.contexts[key] else []
  }

  function Record(table: Table, e: Entry): Table {
    var t := RootStripped(e.scope.path);
    Table(table.contexts[Format(t) := AreasAt(table, Format(t)) + [e.area]], table.reversed[e.area := t])
  }

  function RecordAll(table: Table, es: seq<Entry>): Table
    decreases |es|
  {
    if es == [] then table else RecordAll(Record(table, es[0]), es[1..])
  }

  lemma {:induction false} RecordAllAppend(table: Table, es: seq<Entry>, fs: seq<Entry>)
    ensures RecordAll(table, es + fs) == RecordAll(RecordAll(table, es), fs)
    decreases |es|
  {
    if es == [] {
      assert es + fs == fs;
    } else {
      assert (es + fs)[1..] == es[1..] + fs;
      RecordAllAppend(Record(table, es[0]), es[1..], fs);
    }
  }

  /** Where a formatted context occurs, in the order of the traversal. */
  function Occurrences(es: seq<Entry>, key: string): seq<Area> {
    if es == [] then []
    else
      var last := es[|es|-1];
      Occurrences(es[..|es|-1], key) + if Format(RootStripped(last.scope.path)) == key then [last.area] else []
  }

  /** The context recorded last for an area. */
  function LastAt(es: seq<Entry>, area: Area): Option<Context> {
    if es == [] then None
    else if es[|es|-1].area == area then Some(RootStripped(es[|es|-1].scope.path))
    else LastAt(es[..|es|-1], area)
  }

  /** Both indexes hold exactly what was recorded: every occurrence in order, and for an area its last context. */
  lemma {:induction false} IndexesExactly(es: seq<Entry>, key: string, area: Area)
    ensures AreasAt(RecordAll(EMPTY, es), key) == Occurrences(es, key)
    ensures area in RecordAll(EMPTY, es).reversed <==> LastAt(es, area).Some?
    ensures area in RecordAll(EMPTY, es).reversed ==> RecordAll(EMPTY, es).reversed[area] == LastAt(es, area).value
    decreases |es|
  {
    if es != [] {
      var init := es[..|es|-1];
      IndexesExactly(init, key, area);
      RecordLast(EMPTY, es);
    }
  }

  lemma RecordLast(table: Table, es: seq<Entry>)
    requires es != []
    ensures RecordAll(table, es) == Record(RecordAll(table, es[..|es|-1]), es[|es|-1])
  {
    var init, last := es[..|es|-1], es[|es|-1];
    assert es == init + [last];
    RecordAllAppend(table, init, [last]);
  }

  lemma {:induction false} LastOccurs(es: seq<Entry>, area: Area)
    requires LastAt(es, area).Some?
    ensures area in Occurrences(es, Format(LastAt(es, area).value))
    decreases |es|
  {
    if es[|es|-1].area != area {
      LastOccurs(es[..|es|-1], area);
    }
  }

  /** The two indexes agree: an area's context leads back to the area. */
  lemma IndexesAgree(es: seq<Entry>, area: Area)
    ensures var table := RecordAll(EMPTY, es);
            area in table.reversed ==> area in AreasAt(table, Format(table.reversed[area]))
  {
    IndexesExactly(es, "", area);
    if LastAt(es, area).Some? {
      IndexesExactly(es, Format(LastAt(es, area).value), area);
      LastOccurs(es, area);
    }
  }

  class SymbolTable {
    var contexts: map<string, seq<Area>>
    var contextsReversed: map<Area, Context>

    ghost function View(): Table
      reads this
    {
      Table(contexts, contextsReversed)
    }

    constructor ()
      ensures View() == EMPTY
    {
      contexts, contextsReversed := map[], map[];
    }

    method AddTemplateContext(templateContext: Context, area: Area)
      modifies this
      ensures forall s: Scope | s.path == templateContext :: View() == Record(old(View()), Entry(s, area))
    {
      var context := templateContext;
      if IsVariable(context) && context[0] == "$" {
        context := Tail(context);
      }
      var key := Format(context);
      var areas := if key in contexts then contexts[key] else [];
      contexts := contexts[key := areas + [area]];
      contextsReversed := contextsReversed[area := context];
    }

    method GetTemplateContextRanges(templateContext: Context) returns (areas: seq<Area>)
      ensures areas == AreasAt(View(), Format(templateContext))
    {
      var key := Format(templateContext);
      areas := if key in contexts then contexts[key] else [];
    }
  }

  /** Whether a shift on this node sets the current context aside. */
  predicate Stashes(n: Node)
    requires WellFormed(n)
  {
    IsSelector(n) && IsVariable(PathOf(n))
  }

  lemma SuffixKeepsHead(n: Node, suffix: string)
    requires WellFormed(n) && IsSelector(n) && (suffix == "" || suffix == "[]")
    ensures IsVariable(Pushed(n, suffix)) <==> IsVariable(PathOf(n))
    ensures |Pushed(n, suffix)| == |PathOf(n)|
  {
    var path := PathOf(n);
    if path != [] {
      assert Pushed(n, suffix)[0] == if |path| == 1 then path[0] + suffix else path[0];
      VariableHead(path);
      VariableHead(Pushed(n, suffix));
      assert path[0] != "" ==> (path[0] + suffix)[0] == path[0][0];
    }
  }

  class ContextVisitor {
    var currentContext: Context
    var stashedContext: seq<Context>
    const symbolTable: SymbolTable

    constructor (symbolTable: SymbolTable)
      ensures currentContext == [] && stashedContext == [] && this.symbolTable == symbolTable
    {
      currentContext, stashedContext := [], [];
      this.symbolTable := symbolTable;
    }

    method PushContext(context: string)
      modifies this`currentContext
      ensures currentContext == old(currentContext) + [context]
    {
      currentContext := currentContext + [context];
    }

    method PushContextMany(context: seq<string>)
      modifies this`currentContext
      ensures currentContext == old(currentContext) + context
    {
      currentContext := currentContext + context;
    }

    method PopContext()
      modifies this`currentContext
      ensures currentContext == if old(currentContext) == [] then [] else old(currentContext)[..|old(currentContext)|-1]
    {
      if |currentContext| == 0 {
        return;
      }
      currentContext := currentContext[..|currentContext|-1];
    }

    method PopContextN(n: nat)
      requires n <= |currentContext|
      modifies this`currentContext
      ensures currentContext == old(currentContext)[..|old(currentContext)|-n]
    {
      currentContext := currentContext[..|currentContext|-n];
    }

    method StashContext()
      modifies this
      ensures currentContext == [] && stashedContext == old(stashedContext) + [old(currentContext)]
    {
      stashedContext := stashedContext + [currentContext];
      currentContext := [];
    }

    method RestoreStashedContext()
      requires stashedContext != []
      modifies this
      ensures currentContext == old(stashedContext)[|old(stashedContext)|-1]
      ensures stashedContext == old(stashedContext)[..|old(stashedContext)|-1]
    {
      currentContext := stashedContext[|stashedContext|-1];
      stashedContext := stashedContext[..|stashedContext|-1];
    }

    method Enter(n: Node, ghost s: Scope)
      requires WellFormed(n) && currentContext == s.path
      modifies this, symbolTable
      ensures currentContext == Inner(n, s).path
      ensures stashedContext == if HeadsVariable(n) then old(stashedContext) + [old(currentContext)] else old(stashedContext)
      ensures symbolTable.View() == RecordAll(old(symbolTable.View()), Own(n, s))
    {
      match n.kind
      case Dot => symbolTable.AddTemplateContext(currentContext, n.area);
      case DotSymbol => symbolTable.AddTemplateContext(currentContext + [""], n.area);
      case FieldIdentifier => symbolTable.AddTemplateContext(currentContext + [n.text], n.area);
      case Field =>
        var name := Child(n, "name").value;
        symbolTable.AddTemplateContext(currentContext + [name.text], name.area);
      case Selector =>
        var operand := Child(n, "operand");
        if operand.Some? && operand.value.kind == Variable {
          StashContext();
          PushContext(operand.value.text);
        }
      case _ =>
    }

    /** Undoes what was done on entering `n` in scope `s` with the stash `before`. */
    method Exit(n: Node, ghost s: Scope, ghost before: seq<Context>)
      requires currentContext == Inner(n, s).path
      requires stashedContext == if HeadsVariable(n) then before + [s.path] else before
      modifies this
      ensures currentContext == s.path && stashedContext == before
    {
      if n.kind == Selector {
        var operand := Child(n, "operand");
        if operand.Some? && operand.value.kind == Variable {
          PopContext();
          RestoreStashedContext();
        }
      }
    }

    method EnterContextShift(n: Node, suffix: string, ghost s: Scope)
      requires WellFormed(n) && currentContext == s.path && (suffix == "" || suffix == "[]")
      modifies this
      ensures currentContext == Shift(s, n, suffix).path
      ensures stashedContext == if Stashes(n) then old(stashedContext) + [old(currentContext)] else old(stashedContext)
    {
      match n.kind
      case FieldIdentifier => PushContext(n.text + suffix);
      case Field => PushContext(Child(n, "name").value.text + suffix);
      case Selector => EnterSelectorShift(n, suffix, s);
      case UnfinishedSelector => EnterSelectorShift(n, suffix, s);
      case _ => assert s.path + [] == s.path;
    }

    method EnterSelectorShift(n: Node, suffix: string, ghost s: Scope)
      requires WellFormed(n) && IsSelector(n) && currentContext == s.path && (suffix == "" || suffix == "[]")
      modifies this
      ensures currentContext == Shift(s, n, suffix).path
      ensures stashedContext == if Stashes(n) then old(stashedContext) + [old(currentContext)] else old(stashedContext)
    {
      SuffixKeepsHead(n, suffix);
      var path := PathOf(n);
      if |path| > 0 {
        path := AppendSuffix(path, suffix);
        if IsVariable(path) {
          StashContext();
        }
      }
      PushContextMany(path);
    }

    /** Undoes the shift that was entered in scope `s` with the stash `before`. */
    method ExitContextShift(n: Node, suffix: string, ghost s: Scope, ghost before: seq<Context>)
      requires WellFormed(n) && (suffix == "" || suffix == "[]")
      requires currentContext == Shift(s, n, suffix).path
      requires stashedContext == if Stashes(n) then before + [s.path] else before
      modifies this
      ensures currentContext == s.path && stashedContext == before
    {
      if n.kind == Field || n.kind == FieldIdentifier {
        PopContext();
      } else if IsSelector(n) {
        SuffixKeepsHead(n, suffix);
        var path := PathOf(n);
        if IsVariable(path) {
          RestoreStashedContext();
        } else {
          PopContextN(|path|);
        }
      }
    }

    /** The traversal leaves the visitor as it found it and records exactly what the reference semantics says. */
    method Visit(n: Node, ghost s: Scope)
      requires WellFormed(n) && currentContext == s.path
      modifies this, symbolTable
      ensures currentContext == s.path && stashedContext == old(stashedContext)
      ensures symbolTable.View() == RecordAll(old(symbolTable.View()), Meaning(n, s))
      decreases n, 2
    {
      Enter(n, s);
      match n.kind {
        case With => VisitWith(n, s);
        case Range => VisitRange(n, s);
        case Selector => VisitSelector(n, Inner(n, s));
        case UnfinishedSelector => VisitSelector(n, Inner(n, s));
        case Dot =>
        case _ => VisitChildren(n, s, old(symbolTable.View()));
      }
      Exit(n, s, old(stashedContext));
    }

    method VisitChildren(n: Node, ghost s: Scope, ghost before: Table)
      requires WellFormed(n) && currentContext == s.path
      requires !IsSelector(n) && n.kind != With && n.kind != Range && n.kind != Dot
      requires symbolTable.View() == RecordAll(before, Own(n, s))
      modifies this, symbolTable
      ensures currentContext == s.path && stashedContext == old(stashedContext)
      ensures symbolTable.View() == RecordAll(before, Meaning(n, s))
      decreases n, 1
    {
      RecordAllAppend(before, Own(n, s), MeaningFrom(n, n.children, 0, s));
      VisitFrom(n, n.children, 0, s);
    }

    method VisitWith(n: Node, ghost s: Scope)
      requires WellFormed(n) && n.kind == With && currentContext == s.path
      modifies this, symbolTable
      ensures currentContext == s.path && stashedContext == old(stashedContext)
      ensures symbolTable.View() == RecordAll(old(symbolTable.View()), Meaning(n, s))
      decreases n, 1
    {
      var condition := Child(n, "condition").value;
      var named := NamedChildren(n);
      ghost var inside := Shift(s, condition, "");
      RecordAllAppend(symbolTable.View(), Meaning(condition, s), MeaningFrom(n, named, 1, inside));
      Visit(condition, s);
      EnterContextShift(condition, "", s);
      VisitFrom(n, named, 1, inside);
      ExitContextShift(condition, "", s, old(stashedContext));
    }

    method VisitRange(n: Node, ghost s: Scope)
      requires WellFormed(n) && n.kind == Range && currentContext == s.path
      modifies this, symbolTable
      ensures currentContext == s.path && stashedContext == old(stashedContext)
      ensures symbolTable.View() == RecordAll(old(symbolTable.View()), Meaning(n, s))
      decreases n, 1
    {
      var named := NamedChildren(n);
      var over := Child(n, "range");
      if over.None? {
        over := Child(named[0], "range");
        if over.None? {
          return;
        }
      }
      RangeOverWellFormed(n);
      ghost var inside := Shift(s, over.value, "[]");
      RecordAllAppend(symbolTable.View(), Meaning(named[0], s), MeaningFrom(n, named, 1, inside));
      Visit(named[0], s);
      EnterContextShift(over.value, "[]", s);
      VisitFrom(n, named, 1, inside);
      ExitContextShift(over.value, "[]", s, old(stashedContext));
    }

    method VisitSelector(n: Node, ghost inner: Scope)
      requires WellFormed(n) && IsSelector(n) && currentContext == inner.path
      modifies this, symbolTable
      ensures currentContext == inner.path && stashedContext == old(stashedContext)
      ensures symbolTable.View() == RecordAll(old(symbolTable.View()), SelectorParts(n, inner))
      decreases n, 1
    {
      var operand := Child(n, "operand").value;
      ghost var before := symbolTable.View();
      ghost var after := Shift(inner, operand, "");
      ghost var head := Meaning(operand, inner);
      ghost var dotMeaning := MeaningOf(n, DotAfterOperand(n), after);
      ghost var fieldMeaning := MeaningOf(n, Child(n, "field"), after);
      Visit(operand, inner);
      EnterContextShift(operand, "", inner);
      var dot := DotAfterOperand(n);
      if dot.Some? {
        Visit(dot.value, after);
      }
      RecordAllAppend(before, head, dotMeaning);
      assert symbolTable.View() == RecordAll(before, head + dotMeaning);
      var field := Child(n, "field");
      if field.Some? {
        Visit(field.value, after);
      }
      RecordAllAppend(before, head + dotMeaning, fieldMeaning);
      ExitContextShift(operand, "", inner, old(stashedContext));
    }

    method VisitFrom(ghost parent: Node, ns: seq<Node>, start: nat, ghost s: Scope)
      requires forall k | 0 <= k < |ns| :: ns[k] < parent && WellFormed(ns[k])
      requires currentContext == s.path
      modifies this, symbolTable
      ensures currentContext == s.path && stashedContext == old(stashedContext)
      ensures symbolTable.View() == RecordAll(old(symbolTable.View()), MeaningFrom(parent, ns, start, s))
      decreases parent, 0
    {
      ghost var table, rest := symbolTable.View(), MeaningFrom(parent, ns, start, s);
      ghost var all := RecordAll(table, rest);
      var i := start;
      while i < |ns|
        invariant currentContext == s.path && stashedContext == old(stashedContext) && symbolTable.View() == table
        invariant rest == MeaningFrom(parent, ns, i, s) && RecordAll(table, rest) == all
      {
        assert ns[i] < parent;
        table, rest := VisitNext(parent, ns, i, s, table, rest);
        i := i + 1;
      }
      NothingLeft(table, parent, ns, i, s);
    }

    method VisitNext(ghost parent: Node, ns: seq<Node>, i: nat, ghost s: Scope, ghost table: Table, ghost rest: seq<Entry>)
      returns (ghost more: Table, ghost later: seq<Entry>)
      requires forall k | 0 <= k < |ns| :: ns[k] < parent && WellFormed(ns[k])
      requires i < |ns| && currentContext == s.path && symbolTable.View() == table
      requires rest == MeaningFrom(parent, ns, i, s)
      modifies this, symbolTable
      ensures currentContext == s.path && stashedContext == old(stashedContext) && symbolTable.View() == more
      ensures later == MeaningFrom(parent, ns, i + 1, s) && RecordAll(more, later) == RecordAll(table, rest)
      decreases ns[i], 3
    {
      NextMeaning(table, parent, ns, i, s);
      Visit(ns[i], s);
      more, later := symbolTable.View(), MeaningFrom(parent, ns, i + 1, s);
    }
  }

  lemma NextMeaning(table: Table, parent: Node, ns: seq<Node>, i: nat, s: Scope)
    requires forall k | 0 <= k < |ns| :: ns[k] < parent && WellFormed(ns[k])
    requires i < |ns|
    ensures RecordAll(table, MeaningFrom(parent, ns, i, s)) ==
            RecordAll(RecordAll(table, Meaning(ns[i], s)), MeaningFrom(parent, ns, i + 1, s))
  {
    RecordAllAppend(table, Meaning(ns[i], s), MeaningFrom(parent, ns, i + 1, s));
  }

  lemma NothingLeft(table: Table, parent: Node, ns: seq<Node>, i: nat, s: Scope)
    requires forall k | 0 <= k < |ns| :: ns[k] < parent && WellFormed(ns[k])
    requires i >= |ns|
    ensures RecordAll(table, MeaningFrom(parent, ns, i, s)) == table
  {
  }

  /** Reading a whole template, which starts at the root context. */
  method ParseTree(root: Node) returns (table: SymbolTable)
    requires WellFormed(root)
    ensures fresh(table) && table.View() == RecordAll(EMPTY, Meaning(root, FromDot([])))
  {
    table := new SymbolTable();
    var visitor := new ContextVisitor(table);
    visitor.Visit(root, FromDot([]));
  }
}
