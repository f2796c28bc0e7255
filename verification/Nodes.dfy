/** The syntax tree of a template, as far as the traversal looks at it. */
module Nodes {
  import opened Options
  import opened Strings
  import opened Contexts

  datatype Kind =
    | Dot | DotSymbol | FieldIdentifier | Field | Selector | UnfinishedSelector | Variable
    | With | Range | Other

  datatype Area = Area(startByte: nat, endByte: nat)

  /** `role` is the grammar's field name of the node in its parent, empty when it has none. */
  datatype Node = Node(kind: Kind, text: string, area: Area, named: bool, role: string, children: seq<Node>)

  /** The index of the first child with a role, or the number of children. */
  function RoleIndex(children: seq<Node>, role: string): (i: nat)
    ensures i <= |children|
    ensures i < |children| ==> children[i].role == role
    ensures forall k | 0 <= k < i :: children[k].role != role
  {
    if children == [] || children[0].role == role then 0 else 1 + RoleIndex(children[1..], role)
  }

  function Child(n: Node, role: string): (r: Option<Node>)
    ensures r.Some? ==> r.value in n.children && r.value < n
  {
    var i := RoleIndex(n.children, role);
    if i < |n.children| then Some(n.children[i]) else None
  }

  function Named(children: seq<Node>): (r: seq<Node>)
    ensures forall i | 0 <= i < |r| :: r[i] in children
  {
    if children == [] then []
    else (if children[0].named then [children[0]] else []) + Named(children[1..])
  }

  function NamedChildren(n: Node): (r: seq<Node>)
    ensures forall i | 0 <= i < |r| :: r[i] in n.children && r[i] < n
  {
    Named(n.children)
  }

  /** The dot between an operand and a field, when it is the operand's next sibling. */
  function DotAfterOperand(n: Node): (r: Option<Node>)
    ensures r.Some? ==> r.value in n.children && r.value < n && r.value.kind == DotSymbol
  {
    var i := RoleIndex(n.children, "operand");
    if i + 1 < |n.children| && n.children[i+1].kind == DotSymbol then Some(n.children[i+1]) else None
  }

  /** What a `range` iterates over sits in the action itself, or in the variable definition that is its first child. */
  function RangeOver(n: Node): (r: Option<Node>)
    requires NamedChildren(n) != []
    ensures r.Some? ==> r.value < n
  {
    var first := NamedChildren(n)[0];
    if Child(n, "range").Some? then Child(n, "range") else Child(first, "range")
  }

  /** What the grammar guarantees: these children, and that exactly the variables begin with a dollar sign. */
  predicate Complete(n: Node) {
    match n.kind
    case With => Child(n, "condition").Some?
    case Range => NamedChildren(n) != []
    case Selector => Child(n, "operand").Some?
    case UnfinishedSelector => Child(n, "operand").Some?
    case Field => Child(n, "name").Some? && !HasPrefix(Child(n, "name").value.text, "$")
    case Variable => HasPrefix(n.text, "$")
    case _ => true
  }

  predicate WellFormed(n: Node) {
    Complete(n) && forall c | c in n.children :: WellFormed(c)
  }

  /** The path that a selector expression spells out. */
  function PathOf(n: Node): Context
    requires WellFormed(n)
  {
    if n.kind == Field then [Child(n, "name").value.text]
    else if n.kind == Variable then [n.text]
    else
      var operand := Child(n, "operand");
      var operandPath := if operand.Some? then PathOf(operand.value) else [];
      var field := Child(n, "field");
      if field.None? then operandPath else operandPath + [field.value.text]
  }

  predicate IsSelector(n: Node) {
    n.kind == Selector || n.kind == UnfinishedSelector
  }

  /** A complete selector whose head is a variable: only these set the context aside on entry. */
  predicate HeadsVariable(n: Node) {
    n.kind == Selector && Child(n, "operand").Some? && Child(n, "operand").value.kind == Variable
  }
}
