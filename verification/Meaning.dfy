/** What `.` means throughout a template: the reference semantics, which passes the scope down the tree. */
module Meanings {
  import opened Options
  import opened Contexts
  import opened Nodes

  /** A context together with what it hangs off: the dot of the surrounding template, or a variable. */
  datatype Scope = FromDot(path: Context) | FromVariable(path: Context)

  datatype Entry = Entry(scope: Scope, area: Area)

  function Extend(s: Scope, path: Context): Scope {
    s.(path := s.path + path)
  }

  /** A path read in a scope: one that begins with a variable leaves the scope behind. */
  function Place(s: Scope, path: Context): Scope {
    if IsVariable(path) then FromVariable(path) else Extend(s, path)
  }

  /** What entering a shift on a node adds to the context. */
  function Pushed(n: Node, suffix: string): Context
    requires WellFormed(n)
  {
    match n.kind
    case FieldIdentifier => [n.text + suffix]
    case Field => [Child(n, "name").value.text + suffix]
    case Selector => if PathOf(n) == [] then [] else AppendSuffix(PathOf(n), suffix)
    case UnfinishedSelector => if PathOf(n) == [] then [] else AppendSuffix(PathOf(n), suffix)
    case _ => []
  }

  /** The scope in which the body of a `with` or `range` over `n`, or the field selected from `n`, is read. */
  function Shift(s: Scope, n: Node, suffix: string): Scope
    requires WellFormed(n)
  {
    if IsSelector(n) then Place(s, Pushed(n, suffix)) else Extend(s, Pushed(n, suffix))
  }

  function Own(n: Node, s: Scope): seq<Entry>
    requires WellFormed(n)
  {
    match n.kind
    case Dot => [Entry(s, n.area)]
    case DotSymbol => [Entry(Extend(s, [""]), n.area)]
    case FieldIdentifier => [Entry(Extend(s, [n.text]), n.area)]
    case Field => var name := Child(n, "name").value; [Entry(Extend(s, [name.text]), name.area)]
    case _ => []
  }

  function Inner(n: Node, s: Scope): Scope {
    if HeadsVariable(n) then FromVariable([Child(n, "operand").value.text]) else s
  }

  function Meaning(n: Node, s: Scope): seq<Entry>
    requires WellFormed(n)
    decreases n, 2
  {
    match n.kind
    case With =>
      var condition := Child(n, "condition").value;
      Meaning(condition, s) + MeaningFrom(n, NamedChildren(n), 1, Shift(s, condition, ""))
    case Range =>
      var over := RangeOver(n);
      if over.None? then []
      else
        RangeOverWellFormed(n);
        Meaning(NamedChildren(n)[0], s) + MeaningFrom(n, NamedChildren(n), 1, Shift(s, over.value, "[]"))
    case Selector => SelectorParts(n, Inner(n, s))
    case UnfinishedSelector => SelectorParts(n, s)
    case Dot => Own(n, s)
    case _ => Own(n, s) + MeaningFrom(n, n.children, 0, s)
  }

  /** The operand in the scope `inner`, then the dot and the field in the scope that the operand shifts to. */
  function SelectorParts(n: Node, inner: Scope): seq<Entry>
    requires WellFormed(n) && IsSelector(n)
    decreases n, 1
  {
    var operand := Child(n, "operand").value;
    var after := Shift(inner, operand, "");
    Meaning(operand, inner) + MeaningOf(n, DotAfterOperand(n), after) + MeaningOf(n, Child(n, "field"), after)
  }

  function MeaningOf(ghost parent: Node, n: Option<Node>, s: Scope): seq<Entry>
    requires n.Some? ==> WellFormed(n.value) && n.value < parent
    decreases parent, 0
  {
    if n.Some? then Meaning(n.value, s) else []
  }

  function MeaningFrom(ghost parent: Node, ns: seq<Node>, i: nat, s: Scope): seq<Entry>
    requires forall k | 0 <= k < |ns| :: ns[k] < parent && WellFormed(ns[k])
    decreases parent, 0, |ns| - i
  {
    if i >= |ns| then [] else Meaning(ns[i], s) + MeaningFrom(parent, ns, i + 1, s)
  }

  lemma RangeOverWellFormed(n: Node)
    requires WellFormed(n) && n.kind == Range
    ensures RangeOver(n).Some? ==> WellFormed(RangeOver(n).value)
  {
    assert NamedChildren(n)[0] in n.children;
  }

  // ----- moving a fragment -----

  function Move(base: Context, s: Scope): Scope {
    if s.FromDot? then FromDot(base + s.path) else s
  }

  function MoveAll(base: Context, es: seq<Entry>): (r: seq<Entry>)
    ensures |r| == |es|
    ensures forall i | 0 <= i < |es| :: r[i] == Entry(Move(base, es[i].scope), es[i].area)
  {
    if es == [] then [] else [Entry(Move(base, es[0].scope), es[0].area)] + MoveAll(base, es[1..])
  }

  lemma MoveAllAppend(base: Context, es: seq<Entry>, fs: seq<Entry>)
    ensures MoveAll(base, es + fs) == MoveAll(base, es) + MoveAll(base, fs)
  {
  }

  lemma MoveExtend(base: Context, s: Scope, path: Context)
    ensures Extend(Move(base, s), path) == Move(base, Extend(s, path))
    ensures Place(Move(base, s), path) == Move(base, Place(s, path))
  {
    assert base + s.path + path == base + (s.path + path);
  }

  /** Moving a fragment under a base prefixes exactly what hangs off the dot and leaves variables alone. */
  lemma {:induction false} Relocates(n: Node, s: Scope, base: Context)
    requires WellFormed(n)
    ensures Meaning(n, Move(base, s)) == MoveAll(base, Meaning(n, s))
    decreases n, 2
  {
    match n.kind
    case With =>
      var condition := Child(n, "condition").value;
      Relocates(condition, s, base);
      ShiftMoves(s, condition, "", base);
      RelocatesFrom(n, NamedChildren(n), 1, Shift(s, condition, ""), base);
      MoveAllAppend(base, Meaning(condition, s), MeaningFrom(n, NamedChildren(n), 1, Shift(s, condition, "")));
    case Range =>
      var over := RangeOver(n);
      if over.Some? {
        RangeOverWellFormed(n);
        var first := NamedChildren(n)[0];
        Relocates(first, s, base);
        ShiftMoves(s, over.value, "[]", base);
        RelocatesFrom(n, NamedChildren(n), 1, Shift(s, over.value, "[]"), base);
        MoveAllAppend(base, Meaning(first, s), MeaningFrom(n, NamedChildren(n), 1, Shift(s, over.value, "[]")));
      }
    case Selector => RelocatesSelector(n, Inner(n, s), base);
    case UnfinishedSelector => RelocatesSelector(n, s, base);
    case Dot => OwnMoves(n, s, base);
    case _ =>
      OwnMoves(n, s, base);
      RelocatesFrom(n, n.children, 0, s, base);
      MoveAllAppend(base, Own(n, s), MeaningFrom(n, n.children, 0, s));
  }

  lemma RelocatesSelector(n: Node, inner: Scope, base: Context)
    requires WellFormed(n) && IsSelector(n)
    ensures SelectorParts(n, Move(base, inner)) == MoveAll(base, SelectorParts(n, inner))
    decreases n, 1
  {
    var operand := Child(n, "operand").value;
    var after := Shift(inner, operand, "");
    var dot, field := DotAfterOperand(n), Child(n, "field");
    Relocates(operand, inner, base);
    ShiftMoves(inner, operand, "", base);
    if dot.Some? { Relocates(dot.value, after, base); }
    if field.Some? { Relocates(field.value, after, base); }
    MoveAllAppend(base, Meaning(operand, inner), MeaningOf(n, dot, after));
    MoveAllAppend(base, Meaning(operand, inner) + MeaningOf(n, dot, after), MeaningOf(n, field, after));
  }

  lemma RelocatesFrom(parent: Node, ns: seq<Node>, i: nat, s: Scope, base: Context)
    requires forall k | 0 <= k < |ns| :: ns[k] < parent && WellFormed(ns[k])
    ensures MeaningFrom(parent, ns, i, Move(base, s)) == MoveAll(base, MeaningFrom(parent, ns, i, s))
    decreases parent, 0, |ns| - i
  {
    if i < |ns| {
      Relocates(ns[i], s, base);
      RelocatesFrom(parent, ns, i + 1, s, base);
      MoveAllAppend(base, Meaning(ns[i], s), MeaningFrom(parent, ns, i + 1, s));
    }
  }

  lemma ShiftMoves(s: Scope, n: Node, suffix: string, base: Context)
    requires WellFormed(n)
    ensures Shift(Move(base, s), n, suffix) == Move(base, Shift(s, n, suffix))
  {
    MoveExtend(base, s, Pushed(n, suffix));
  }

  lemma OwnMoves(n: Node, s: Scope, base: Context)
    requires WellFormed(n)
    ensures Own(n, Move(base, s)) == MoveAll(base, Own(n, s))
  {
    match n.kind
    case Dot =>
    case DotSymbol => MoveExtend(base, s, [""]);
    case FieldIdentifier => MoveExtend(base, s, [n.text]);
    case Field => MoveExtend(base, s, [Child(n, "name").value.text]);
    case _ =>
  }

  /** The body of a `with` or `range` over a selector that begins with a variable does not depend on the surroundings. Over
      anything else it is the body read at the root, moved under the context that the shift gives; and where the shift adds
      nothing, as for a dot or a bare variable, it is read in the surrounding context. */
  lemma BodyMoves(parent: Node, ns: seq<Node>, i: nat, over: Node, suffix: string, context: Context)
    requires WellFormed(over)
    requires forall k | 0 <= k < |ns| :: ns[k] < parent && WellFormed(ns[k])
    ensures MeaningFrom(parent, ns, i, Shift(FromDot(context), over, suffix)) ==
            if IsSelector(over) && IsVariable(Pushed(over, suffix))
            then MeaningFrom(parent, ns, i, FromVariable(Pushed(over, suffix)))
            else MoveAll(context + Pushed(over, suffix), MeaningFrom(parent, ns, i, FromDot([])))
    ensures over.kind == Dot || over.kind == Variable ==>
              MeaningFrom(parent, ns, i, Shift(FromDot(context), over, suffix)) == MeaningFrom(parent, ns, i, FromDot(context))
  {
    var base := context + Pushed(over, suffix);
    assert base + [] == base;
    RelocatesFrom(parent, ns, i, FromDot([]), base);
    RelocatesFrom(parent, ns, i, FromDot([]), context);
    assert context + [] == context;
  }

  // ----- selector chains -----

  /** `.a.b.c` or `$v.a.b.c`: complete selectors down to a field or a variable. */
  predicate IsChain(n: Node) {
    && n.kind == Selector
    && Child(n, "operand").Some? && Child(n, "field").Some?
    && Child(n, "field").value.kind == FieldIdentifier
    && var head := Child(n, "operand").value; (head.kind == Field || head.kind == Variable || IsChain(head))
  }

  /** The selectors of a chain, outermost last. */
  function Links(n: Node): (links: seq<Node>)
    requires IsChain(n)
    ensures forall m | m in links :: IsChain(m)
  {
    var operand := Child(n, "operand").value;
    (if operand.kind == Selector then Links(operand) else []) + [n]
  }

  lemma {:induction false} PathIsPlaced(s: Scope, path: Context, name: string)
    requires path != []
    ensures Place(s, path + [name]) == Extend(Place(s, path), [name])
  {
    assert s.path + (path + [name]) == s.path + path + [name];
  }

  /** What a chain records for its own field and dot. */
  lemma LinkMeaning(n: Node, s: Scope)
    requires WellFormed(n) && IsChain(n)
    ensures Entry(Place(s, PathOf(n)), Child(n, "field").value.area) in Meaning(n, s)
    ensures DotAfterOperand(n).Some? ==>
      Entry(Extend(Place(s, PathOf(Child(n, "operand").value)), [""]), DotAfterOperand(n).value.area) in Meaning(n, s)
  {
    var operand, field := Child(n, "operand").value, Child(n, "field").value;
    var inner := Inner(n, s);
    var after := Shift(inner, operand, "");
    PushedIsPath(n, s);
    PathIsPlaced(s, PathOf(operand), field.text);
    assert Meaning(n, s) == SelectorParts(n, inner);
    assert MeaningOf(n, Child(n, "field"), after) == Meaning(field, after);
    assert Meaning(field, after)[0] == Entry(Place(s, PathOf(n)), field.area);
    if DotAfterOperand(n).Some? {
      var dot := DotAfterOperand(n).value;
      assert MeaningOf(n, Some(dot), after) == Meaning(dot, after);
      assert Meaning(dot, after)[0] == Entry(Extend(after, [""]), dot.area);
    }
  }

  /** Along a chain of any length every field is recorded at the path spelled out so far, and every dot at the path before it. */
  lemma {:induction false} ChainMeaning(n: Node, s: Scope)
    requires WellFormed(n) && IsChain(n)
    ensures forall m | m in Links(n) :: WellFormed(m) && WellFormed(Child(m, "operand").value)
    ensures forall m | m in Links(n) :: Entry(Place(s, PathOf(m)), Child(m, "field").value.area) in Meaning(n, s)
    ensures forall m | m in Links(n) && DotAfterOperand(m).Some? ::
      Entry(Extend(Place(s, PathOf(Child(m, "operand").value)), [""]), DotAfterOperand(m).value.area) in Meaning(n, s)
  {
    var operand := Child(n, "operand").value;
    LinkMeaning(n, s);
    if operand.kind == Selector {
      ChainMeaning(operand, s);
      assert Meaning(operand, s) <= SelectorParts(n, s) == Meaning(n, s);
    }
  }

  /** An unfinished selector `x.` records its dot at the path of its operand, except right after a bare variable:
      there the code does not set the context aside, and the dot is recorded in the surrounding scope. */
  lemma UnfinishedDot(n: Node, s: Scope)
    requires WellFormed(n) && n.kind == UnfinishedSelector && DotAfterOperand(n).Some?
    requires var operand := Child(n, "operand").value; operand.kind == Field || operand.kind == Variable || IsChain(operand)
    ensures var operand, dot := Child(n, "operand").value, DotAfterOperand(n).value;
            var recorded := Extend(Shift(s, operand, ""), [""]);
            && Entry(recorded, dot.area) in Meaning(n, s)
            && (recorded == Extend(Place(s, PathOf(operand)), [""]) <==>
                operand.kind != Variable || s == FromVariable([operand.text]))
  {
    var operand, dot := Child(n, "operand").value, DotAfterOperand(n).value;
    var after := Shift(s, operand, "");
    assert Meaning(n, s) == SelectorParts(n, s);
    assert MeaningOf(n, Some(dot), after) == Meaning(dot, after);
    assert Meaning(dot, after)[0] == Entry(Extend(after, [""]), dot.area);
    OperandShift(operand, s);
    if operand.kind == Variable {
      assert Extend(s, [""]).path[..|s.path|] == s.path;
      assert [operand.text, ""][..1] == [operand.text];
    }
  }

  /** `{{ $x. }}` at the top of a template: the dot is recorded at the root, and nothing is recorded under `$x`. */
  lemma VariableDotAtRoot(operand: Node, dot: Node, area: Area)
    requires operand == Node(Variable, "$x", operand.area, true, "operand", []) && dot == Node(DotSymbol, ".", dot.area, false, "", [])
    ensures var n := Node(UnfinishedSelector, "$x.", area, true, "", [operand, dot]);
            WellFormed(n) && Meaning(n, FromDot([])) == [Entry(FromDot([""]), dot.area)]
  {
    var n := Node(UnfinishedSelector, "$x.", area, true, "", [operand, dot]);
    assert [dot] == n.children[1..] && dot.role == "";
    assert Meaning(operand, FromDot([])) == [];
    assert FromDot([]).path + [""] == [""];
    assert DotAfterOperand(n) == Some(dot);
    assert MeaningOf(n, Some(dot), FromDot([])) == Meaning(dot, FromDot([]));
    assert MeaningFrom(dot, [], 0, FromDot([])) == [];
    assert Child(n, "operand") == Some(operand) && Child(n, "field") == None;
    assert SelectorParts(n, FromDot([])) == [] + [Entry(FromDot([""]), dot.area)] + [];
    assert Meaning(n, FromDot([])) == SelectorParts(n, FromDot([]));
  }

  lemma OperandShift(operand: Node, s: Scope)
    requires WellFormed(operand) && (operand.kind == Field || operand.kind == Variable || IsChain(operand))
    ensures Shift(s, operand, "") == if operand.kind == Variable then s else Place(s, PathOf(operand))
  {
    match operand.kind
    case Variable => assert s.path + [] == s.path;
    case Field => SuffixEmpty(PathOf(operand)); assert PathOf(operand) == Pushed(operand, "");
    case Selector => SelectorPath(operand); SuffixEmpty(PathOf(operand));
  }

  lemma SuffixEmpty(path: Context)
    requires path != []
    ensures AppendSuffix(path, "") == path
  {
    assert path[|path|-1] + "" == path[|path|-1];
  }

  lemma PushedIsPath(n: Node, s: Scope)
    requires WellFormed(n) && IsChain(n)
    ensures PathOf(Child(n, "operand").value) != []
    ensures Shift(Inner(n, s), Child(n, "operand").value, "") == Place(s, PathOf(Child(n, "operand").value))
  {
    var operand := Child(n, "operand").value;
    OperandShift(operand, Inner(n, s));
    if operand.kind == Selector {
      SelectorPath(operand);
    }
  }

  lemma SelectorPath(n: Node)
    requires WellFormed(n) && IsChain(n)
    ensures PathOf(n) != []
  {
  }
}
