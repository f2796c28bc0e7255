/** Where the nodes of a template stand, told without the traversal, and what the traversal records of them. */
module Traversal {
  import opened Options
  import opened Nodes
  import opened Meanings
  import opened Blocks

  /** The node at a path of child indexes. */
  function NodeAt(n: Node, path: seq<nat>): (r: Option<Node>)
    requires WellFormed(n)
    ensures r.Some? ==> WellFormed(r.value)
    decreases |path|
  {
    if path == [] then Some(n)
    else if path[0] < |n.children| then NodeAt(n.children[path[0]], path[1..])
    else None
  }

  // ----- one step down -----

  /** The scope behind an expression that is tested, ranged over or selected from: what it denotes, with the suffix for
      elements. A bare variable, and anything that spells out no path, leaves the scope as it is. */
  function Entered(s: Scope, over: Node, suffix: string): Scope
    requires WellFormed(over)
  {
    if over.kind == Field || IsChain(over) then Denoted(s, over, suffix)
    else if IsSelector(over) then (if PathOf(over) == [] then s else Place(s, Suffixed(PathOf(over), suffix)))
    else if over.kind == FieldIdentifier then Extend(s, [over.text + suffix])
    else s
  }

  /** A complete selector on a variable is read in the scope of that variable. */
  function SelectorScope(n: Node, s: Scope): Scope
    requires WellFormed(n) && IsSelector(n)
  {
    var operand := Child(n, "operand").value;
    if n.kind == Selector && operand.kind == Variable then FromVariable([operand.text]) else s
  }

  /** Named, and not the first child that is. */
  predicate LaterNamed(children: seq<Node>, i: nat) {
    i < |children| && children[i].named && exists j: nat :: j < i && children[j].named
  }

  predicate FirstNamed(children: seq<Node>, i: nat) {
    i < |children| && children[i].named && forall j: nat | j < i :: !children[j].named
  }

  /** The `i`-th child of a node that is read in `s` is itself read in `t`. The children of a dot are not read, nor is a `range`
      over nothing. */
  predicate ReadIn(n: Node, s: Scope, i: nat, t: Scope)
    requires WellFormed(n) && i < |n.children|
  {
    match n.kind
    case Dot => false
    case With =>
      || (RoleIndex(n.children, "condition") == i && t == s)
      || (LaterNamed(n.children, i) && t == Entered(s, Child(n, "condition").value, ""))
    case Range =>
      && BlockOver(n).Some?
      && ((FirstNamed(n.children, i) && t == s) || (LaterNamed(n.children, i) && t == Entered(s, BlockOver(n).value, "[]")))
    case Selector => ReadInSelector(n, s, i, t)
    case UnfinishedSelector => ReadInSelector(n, s, i, t)
    case _ => t == s
  }

  predicate ReadInSelector(n: Node, s: Scope, i: nat, t: Scope)
    requires WellFormed(n) && IsSelector(n) && i < |n.children|
  {
    var operand := RoleIndex(n.children, "operand");
    var behind := i == RoleIndex(n.children, "field") || (i == operand + 1 && n.children[i].kind == DotSymbol);
    || (i == operand && t == SelectorScope(n, s))
    || (behind && t == Entered(SelectorScope(n, s), Child(n, "operand").value, ""))
  }

  /** What is recorded of a node that is read in `s`: the dot itself, the fields with their names, and for the dot of a selector
      the place where a name would follow. */
  function Mark(n: Node, s: Scope): Option<Entry>
    requires WellFormed(n)
  {
    match n.kind
    case Dot => Some(Entry(s, n.area))
    case DotSymbol => Some(Entry(s.(path := s.path + [""]), n.area))
    case FieldIdentifier => Some(Entry(s.(path := s.path + [n.text]), n.area))
    case Field =>
      var name := Child(n, "name").value;
      Some(Entry(s.(path := s.path + [name.text]), name.area))
    case _ => None
  }

  // ----- the steps of the traversal are these -----

  lemma EnteredIsShift(s: Scope, over: Node, suffix: string)
    requires WellFormed(over) && (suffix == "" || suffix == "[]")
    ensures Entered(s, over, suffix) == Shift(s, over, suffix)
  {
    if over.kind == Field || IsChain(over) {
      PathDenotes(s, over, suffix);
    } else if IsSelector(over) {
      if PathOf(over) != [] {
        SuffixEmpty(PathOf(over));
      } else {
        assert s.path + [] == s.path;
      }
    } else if over.kind != FieldIdentifier {
      assert s.path + [] == s.path;
    }
  }

  lemma {:induction false} AmongFrom(parent: Node, ns: seq<Node>, i: nat, s: Scope, e: Entry) returns (k: nat)
    requires forall k | 0 <= k < |ns| :: ns[k] < parent && WellFormed(ns[k])
    requires e in MeaningFrom(parent, ns, i, s)
    ensures i <= k < |ns| && e in Meaning(ns[k], s)
    decreases |ns| - i
  {
    if e in Meaning(ns[i], s) {
      k := i;
    } else {
      k := AmongFrom(parent, ns, i + 1, s, e);
    }
  }

  lemma {:induction false} FromAmong(parent: Node, ns: seq<Node>, i: nat, s: Scope, e: Entry, k: nat)
    requires forall k | 0 <= k < |ns| :: ns[k] < parent && WellFormed(ns[k])
    requires i <= k < |ns| && e in Meaning(ns[k], s)
    ensures e in MeaningFrom(parent, ns, i, s)
    decreases |ns| - i
  {
    if i < k {
      FromAmong(parent, ns, i + 1, s, e, k);
    }
  }

  /** Named children by their place among all children. */
  lemma {:induction false} NamedPlace(children: seq<Node>, j: nat) returns (i: nat)
    requires j < |Named(children)|
    ensures i < |children| && children[i] == Named(children)[j] && children[i].named
    ensures if j == 0 then FirstNamed(children, i) else LaterNamed(children, i)
    decreases |children|
  {
    if children[0].named && j == 0 {
      i := 0;
    } else {
      var below := NamedPlace(children[1..], if children[0].named then j - 1 else j);
      i := below + 1;
      if children[0].named {
        assert children[0].named && 0 < i;
      } else if j > 0 {
        var k: nat :| k < below && children[1..][k].named;
        assert children[k+1].named;
      }
    }
  }

  lemma {:induction false} PlaceNamed(children: seq<Node>, i: nat) returns (j: nat)
    requires i < |children| && children[i].named
    ensures j < |Named(children)| && Named(children)[j] == children[i]
    ensures j == 0 ==> FirstNamed(children, i)
    ensures FirstNamed(children, i) ==> j == 0
    decreases |children|
  {
    if i == 0 {
      j := 0;
    } else {
      var below := PlaceNamed(children[1..], i - 1);
      j := if children[0].named then below + 1 else below;
      if FirstNamed(children[1..], i - 1) && !children[0].named {
        forall k: nat | k < i ensures !children[k].named {
          if k > 0 {
            assert !children[1..][k-1].named;
          }
        }
      }
      if FirstNamed(children, i) {
        assert forall k: nat | k < i - 1 :: !children[1..][k].named;
      }
    }
  }

  /** What is recorded below a child is recorded. */
  lemma ChildRecorded(n: Node, s: Scope, i: nat, t: Scope, e: Entry)
    requires WellFormed(n) && i < |n.children| && ReadIn(n, s, i, t) && e in Meaning(n.children[i], t)
    ensures e in Meaning(n, s)
  {
    match n.kind
    case With =>
      var condition := Child(n, "condition").value;
      EnteredIsShift(s, condition, "");
      if LaterNamed(n.children, i) {
        var j := PlaceNamed(n.children, i);
        if j > 0 && t == Shift(s, condition, "") {
          FromAmong(n, NamedChildren(n), 1, t, e, j);
        }
      }
    case Range =>
      RangeChildRecorded(n, s, i, t, e);
    case Selector => SelectorChildRecorded(n, s, i, t, e);
    case UnfinishedSelector => SelectorChildRecorded(n, s, i, t, e);
    case Dot =>
    case _ => FromAmong(n, n.children, 0, s, e, i);
  }

  lemma RangeChildRecorded(n: Node, s: Scope, i: nat, t: Scope, e: Entry)
    requires WellFormed(n) && n.kind == Range && i < |n.children| && ReadIn(n, s, i, t) && e in Meaning(n.children[i], t)
    ensures e in Meaning(n, s)
  {
    var over := BlockOver(n).value;
    EnteredIsShift(s, over, "[]");
    var j := PlaceNamed(n.children, i);
    if j > 0 {
      FromAmong(n, NamedChildren(n), 1, t, e, j);
    }
  }

  lemma SelectorChildRecorded(n: Node, s: Scope, i: nat, t: Scope, e: Entry)
    requires WellFormed(n) && IsSelector(n) && i < |n.children| && ReadInSelector(n, s, i, t) && e in Meaning(n.children[i], t)
    ensures e in Meaning(n, s)
  {
    var operand := Child(n, "operand").value;
    var inner := SelectorScope(n, s);
    EnteredIsShift(inner, operand, "");
    var after := Shift(inner, operand, "");
    assert Meaning(n, s) == SelectorParts(n, inner);
    assert DotAfterOperand(n).Some? ==> MeaningOf(n, DotAfterOperand(n), after) == Meaning(DotAfterOperand(n).value, after);
    assert Child(n, "field").Some? ==> MeaningOf(n, Child(n, "field"), after) == Meaning(Child(n, "field").value, after);
  }

  /** Whatever is recorded at a node is its own mark or is recorded below a child. */
  lemma RecordedWhere(n: Node, s: Scope, e: Entry) returns (i: nat, t: Scope)
    requires WellFormed(n) && e in Meaning(n, s)
    ensures Mark(n, s) == Some(e) || (i < |n.children| && ReadIn(n, s, i, t) && e in Meaning(n.children[i], t))
  {
    i, t := 0, s;
    match n.kind
    case With => i, t := WithRecordedWhere(n, s, e);
    case Range => i, t := RangeRecordedWhere(n, s, e);
    case Selector => i, t := SelectorRecordedWhere(n, s, e);
    case UnfinishedSelector => i, t := SelectorRecordedWhere(n, s, e);
    case Dot =>
    case _ =>
      if e !in Own(n, s) {
        i := AmongFrom(n, n.children, 0, s, e);
      }
  }

  lemma WithRecordedWhere(n: Node, s: Scope, e: Entry) returns (i: nat, t: Scope)
    requires WellFormed(n) && n.kind == With && e in Meaning(n, s)
    ensures i < |n.children| && ReadIn(n, s, i, t) && e in Meaning(n.children[i], t)
  {
    var condition := Child(n, "condition").value;
    EnteredIsShift(s, condition, "");
    if e in Meaning(condition, s) {
      i, t := RoleIndex(n.children, "condition"), s;
    } else {
      t := Shift(s, condition, "");
      var j := AmongFrom(n, NamedChildren(n), 1, t, e);
      i := NamedPlace(n.children, j);
    }
  }

  lemma RangeRecordedWhere(n: Node, s: Scope, e: Entry) returns (i: nat, t: Scope)
    requires WellFormed(n) && n.kind == Range && e in Meaning(n, s)
    ensures i < |n.children| && ReadIn(n, s, i, t) && e in Meaning(n.children[i], t)
  {
    var over := BlockOver(n).value;
    EnteredIsShift(s, over, "[]");
    if e in Meaning(NamedChildren(n)[0], s) {
      t := s;
      i := NamedPlace(n.children, 0);
    } else {
      t := Shift(s, over, "[]");
      var j := AmongFrom(n, NamedChildren(n), 1, t, e);
      i := NamedPlace(n.children, j);
    }
  }

  lemma SelectorRecordedWhere(n: Node, s: Scope, e: Entry) returns (i: nat, t: Scope)
    requires WellFormed(n) && IsSelector(n) && e in Meaning(n, s)
    ensures i < |n.children| && ReadIn(n, s, i, t) && e in Meaning(n.children[i], t)
  {
    var operand := Child(n, "operand").value;
    var inner := SelectorScope(n, s);
    EnteredIsShift(inner, operand, "");
    var after := Shift(inner, operand, "");
    assert Meaning(n, s) == SelectorParts(n, inner);
    if e in Meaning(operand, inner) {
      i, t := RoleIndex(n.children, "operand"), inner;
    } else if e in MeaningOf(n, DotAfterOperand(n), after) {
      i, t := RoleIndex(n.children, "operand") + 1, after;
      PartOf(n, DotAfterOperand(n), after, e);
    } else {
      i, t := RoleIndex(n.children, "field"), after;
      PartOf(n, Child(n, "field"), after, e);
    }
  }

  lemma PartOf(parent: Node, part: Option<Node>, s: Scope, e: Entry)
    requires part.Some? ==> WellFormed(part.value) && part.value < parent
    requires e in MeaningOf(parent, part, s)
    ensures part.Some? && e in Meaning(part.value, s)
  {
  }

  // ----- whole paths -----

  /** The node at a path below `n` is read in `t`, when `n` is read in `s`. */
  ghost predicate StandsAlong(n: Node, s: Scope, path: seq<nat>, t: Scope)
    requires WellFormed(n)
    decreases |path|
  {
    if path == [] then t == s
    else path[0] < |n.children| && exists m :: ReadIn(n, s, path[0], m) && StandsAlong(n.children[path[0]], m, path[1..], t)
  }

  ghost predicate StandsIn(n: Node, s: Scope, path: seq<nat>, t: Scope)
    requires WellFormed(n)
  {
    StandsAlong(n, s, path, t) && NodeAt(n, path).Some?
  }

  /** Everything recorded of a node, read where it stands, is recorded of the whole. */
  lemma {:induction false} PartRecorded(n: Node, s: Scope, path: seq<nat>, t: Scope, e: Entry)
    requires WellFormed(n) && StandsIn(n, s, path, t) && e in Meaning(NodeAt(n, path).value, t)
    ensures e in Meaning(n, s)
    decreases |path|
  {
    if path != [] {
      var child := n.children[path[0]];
      var m :| ReadIn(n, s, path[0], m) && StandsAlong(child, m, path[1..], t);
      PartRecorded(child, m, path[1..], t, e);
      ChildRecorded(n, s, path[0], m, e);
    }
  }

  lemma MarkRecorded(n: Node, s: Scope)
    requires WellFormed(n) && Mark(n, s).Some?
    ensures Mark(n, s).value in Meaning(n, s)
  {
    assert Own(n, s) == [Mark(n, s).value];
    if n.kind != Dot {
      assert Own(n, s) <= Meaning(n, s);
    }
  }

  lemma {:induction false} RecordedStands(n: Node, s: Scope, e: Entry) returns (path: seq<nat>, t: Scope)
    requires WellFormed(n) && e in Meaning(n, s)
    ensures StandsIn(n, s, path, t) && Mark(NodeAt(n, path).value, t) == Some(e)
    decreases n
  {
    path, t := [], s;
    if Mark(n, s) != Some(e) {
      var i, m := RecordedWhere(n, s, e);
      var below, scope := RecordedStands(n.children[i], m, e);
      path, t := [i] + below, scope;
      assert path[1..] == below;
      assert ReadIn(n, s, path[0], m) && StandsAlong(n.children[path[0]], m, path[1..], t);
    }
  }

  /** The entry is the mark of some node, read where it stands. */
  ghost predicate Marked(n: Node, s: Scope, e: Entry)
    requires WellFormed(n)
  {
    exists path: seq<nat>, t :: StandsIn(n, s, path, t) && Mark(NodeAt(n, path).value, t) == Some(e)
  }

  /** For every well-formed tree, what is recorded is exactly the marks of its nodes: of every dot and field that is read, at
      the scope that the blocks and selectors around it give, and of nothing else. */
  lemma RecordedExactly(n: Node, s: Scope, e: Entry)
    requires WellFormed(n)
    ensures e in Meaning(n, s) <==> Marked(n, s, e)
  {
    if e in Meaning(n, s) {
      var path, t := RecordedStands(n, s, e);
      assert StandsIn(n, s, path, t);
    }
    forall path: seq<nat>, t | StandsIn(n, s, path, t) && Mark(NodeAt(n, path).value, t) == Some(e) ensures e in Meaning(n, s) {
      MarkRecorded(NodeAt(n, path).value, t);
      PartRecorded(n, s, path, t, e);
    }
  }
}
