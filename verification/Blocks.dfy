/** What the bodies of `with` and `range` are read at. */
module Blocks {
  import opened Options
  import opened Strings
  import opened Contexts
  import opened Nodes
  import opened Meanings

  /** What a `with` tests or a `range` ranges over, and the suffix for its elements. */
  function BlockOver(n: Node): (over: Option<Node>)
    requires WellFormed(n) && (n.kind == With || n.kind == Range)
    ensures over.Some? ==> WellFormed(over.value)
  {
    if n.kind == With then Child(n, "condition")
    else
      RangeOverWellFormed(n);
      RangeOver(n)
  }

  function BlockSuffix(n: Node): string {
    if n.kind == Range then "[]" else ""
  }

  function Suffixed(path: Context, suffix: string): Context {
    if suffix == "" then path else AppendSuffix(path, suffix)
  }

  /** Expressions that spell out a path. */
  predicate SpellsPath(n: Node) {
    n.kind == Dot || n.kind == Field || n.kind == Variable || IsChain(n)
  }

  /** What the dot stands for in a body, by the meaning of `with` and `range`: what the expression denotes, or its elements. */
  function Denoted(s: Scope, over: Node, suffix: string): Scope
    requires WellFormed(over) && SpellsPath(over)
  {
    if over.kind == Dot then s.(path := Suffixed(s.path, suffix)) else Place(s, Suffixed(PathOf(over), suffix))
  }

  lemma DotDenotes(s: Scope, over: Node, suffix: string)
    requires WellFormed(over) && over.kind == Dot
    ensures Shift(s, over, suffix) == s && (Denoted(s, over, suffix) == s <==> suffix == "")
  {
    assert s.path + [] == s.path;
    if suffix != "" && s.path != [] {
      assert AppendSuffix(s.path, suffix)[|s.path|-1] == s.path[|s.path|-1] + suffix;
      assert |s.path[|s.path|-1] + suffix| > |s.path[|s.path|-1]|;
    }
  }

  lemma VariableDenotes(s: Scope, over: Node, suffix: string)
    requires WellFormed(over) && over.kind == Variable
    ensures Shift(s, over, suffix) == s && Denoted(s, over, suffix) == FromVariable([over.text + suffix])
  {
    assert s.path + [] == s.path;
    assert [over.text][..0] == [];
    assert (over.text + suffix)[..1] == over.text[..1];
    assert over.text + "" == over.text;
  }

  lemma NotAVariable(name: string, suffix: string)
    requires !HasPrefix(name, "$") && (suffix == "" || suffix == "[]")
    ensures !HasPrefix(name + suffix, "$") && Suffixed([name], suffix) == [name + suffix]
  {
    assert name + "" == name && [name][..0] == [];
    if name + suffix != "" {
      assert (name + suffix)[0] == if name == "" then suffix[0] else name[0];
    }
  }

  lemma PathDenotes(s: Scope, over: Node, suffix: string)
    requires WellFormed(over) && (over.kind == Field || IsChain(over)) && (suffix == "" || suffix == "[]")
    ensures Shift(s, over, suffix) == Denoted(s, over, suffix)
  {
    if over.kind == Field {
      NotAVariable(Child(over, "name").value.text, suffix);
      assert PathOf(over) == [Child(over, "name").value.text];
    } else {
      SelectorPath(over);
      SuffixEmpty(PathOf(over));
    }
  }

  /** For every tree: the body of a `with` or `range` is read at what the expression denotes, for a `range` at its elements,
      exactly if the expression is a field or a chain of selectors, or the dot of a `with`. Over the dot of a `range`, and over a
      bare variable, the code leaves the context as it is. */
  lemma BodyReadAt(n: Node, s: Scope)
    requires WellFormed(n) && (n.kind == With || n.kind == Range) && BlockOver(n).Some? && SpellsPath(BlockOver(n).value)
    ensures var over, suffix := BlockOver(n).value, BlockSuffix(n);
            var body := Shift(s, over, suffix);
            && Meaning(n, s) == Meaning(if n.kind == With then over else NamedChildren(n)[0], s) +
                                MeaningFrom(n, NamedChildren(n), 1, body)
            && (body == Denoted(s, over, suffix) <==>
                  over.kind == Field || IsChain(over) || (over.kind == Dot && n.kind == With) ||
                  (over.kind == Variable && s == FromVariable([over.text + suffix])))
            && (over.kind == Dot || over.kind == Variable ==> body == s)
  {
    var over, suffix := BlockOver(n).value, BlockSuffix(n);
    match over.kind {
      case Dot => DotDenotes(s, over, suffix);
      case Variable => VariableDenotes(s, over, suffix);
      case _ => PathDenotes(s, over, suffix);
    }
  }

  /** `{{ range $list }}{{ .a }}{{ end }}` at the top of a template: the field is recorded as one of the root, and nothing is
      recorded under `$list`. */
  lemma BareRangeAtRoot(over: Node, field: Node, name: Node, area: Area)
    requires over == Node(Variable, "$list", over.area, true, "range", [])
    requires name == Node(FieldIdentifier, "a", name.area, true, "name", []) && field == Node(Field, ".a", field.area, true, "", [name])
    ensures var n := Node(Range, "", area, true, "", [over, field]);
            && WellFormed(n)
            && Entry(FromDot(["a"]), name.area) in Meaning(n, FromDot([]))
            && forall e | e in Meaning(n, FromDot([])) :: e == Entry(FromDot(["a"]), name.area)
  {
    var n := Node(Range, "", area, true, "", [over, field]);
    FieldRecorded(field, name, FromDot([]));
    RangeOfTwo(n, over, field);
    assert Meaning(over, FromDot([])) == [];
    assert FromDot([]).path + ["a"] == ["a"];
  }

  /** A `range` over a bare variable with one node for a body reads it in the surrounding context. */
  lemma RangeOfTwo(n: Node, over: Node, body: Node)
    requires n.kind == Range && n.children == [over, body] && over.named && body.named && over.role == "range"
    requires over.kind == Variable && WellFormed(over) && WellFormed(body)
    ensures WellFormed(n) && Meaning(n, FromDot([])) == Meaning(over, FromDot([])) + Meaning(body, FromDot([]))
  {
    assert [over, body][1..] == [body] && [body][1..] == [];
    assert Named([body]) == [body] + Named([]);
    assert Named([over, body]) == [over] + Named([body]);
    assert Child(n, "range") == Some(over);
    BodyReadAt(n, FromDot([]));
    assert MeaningFrom(n, [over, body], 2, FromDot([])) == [];
    assert MeaningFrom(n, [over, body], 1, FromDot([])) == Meaning(body, FromDot([])) + [];
  }

  lemma FieldRecorded(field: Node, name: Node, s: Scope)
    requires name == Node(FieldIdentifier, "a", name.area, true, "name", []) && field == Node(Field, ".a", field.area, true, "", [name])
    ensures WellFormed(field) && Meaning(field, s) == [Entry(Extend(s, ["a"]), name.area), Entry(Extend(s, ["a"]), name.area)]
  {
    assert "a"[0] != '$' && Child(field, "name") == Some(name);
    assert Own(name, s) == [Entry(Extend(s, ["a"]), name.area)] && Own(field, s) == [Entry(Extend(s, ["a"]), name.area)];
    assert MeaningFrom(name, [], 0, s) == [];
    assert MeaningFrom(field, [name], 1, s) == [];
    assert MeaningFrom(field, [name], 0, s) == Meaning(name, s) + [];
  }
}
