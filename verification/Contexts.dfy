/** Template contexts: the path that `.` stands for at some point of a template. */
module Contexts {
  import opened Strings

  type Context = seq<string>

  function Format(t: Context): string {
    Join(t, '.')
  }

  function Tail(t: Context): Context {
    if t == [] then t else t[1..]
  }

  predicate IsVariable(t: Context) {
    t != [] && HasPrefix(t[0], "$")
  }

  lemma VariableHead(t: Context)
    ensures IsVariable(t) <==> t != [] && t[0] != "" && t[0][0] == '$'
  {
    assert t != [] && t[0] != "" ==> t[0] == [t[0][0]] + t[0][1..];
  }

  /** Adds a suffix to the last segment. */
  function AppendSuffix(t: Context, suffix: string): (r: Context)
    ensures t != [] ==> |r| == |t|
  {
    if t == [] then [suffix] else t[..|t|-1] + [t[|t|-1] + suffix]
  }

  function NewTemplateContext(s: string): Context {
    if s == "." then []
    else
      var parts := Split(s, '.');
      if parts[0] == "" then parts[1..] else parts
  }

  /** Reading back a formatted context gives it again exactly when no segment holds a dot and the first is not empty. */
  lemma FormatRoundTrip(t: Context)
    ensures NewTemplateContext(Format(t)) == t <==> (forall p | p in t :: '.' !in p) && (t == [] || t[0] != "")
  {
    var back := NewTemplateContext(Format(t));
    assert forall p | p in back :: '.' !in p by {
      assert forall p | p in Split(Format(t), '.')[1..] :: p in Split(Format(t), '.');
    }
    if t != [] && forall p | p in t :: '.' !in p {
      SplitJoin(t, '.');
      if Format(t) == "." {
        assert Split(".", '.') == ["", ""];
      }
    }
  }
}
