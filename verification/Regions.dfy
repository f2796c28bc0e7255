/** The walk that picks the literal text out of a Plato syntax tree. */
module Regions {

  /** A half-open byte range. */
  datatype Span = Span(start: nat, end: nat)

  datatype Tree = Tree(kind: string, start: nat, end: nat, children: seq<Tree>)

  const UNSTABLE_KINDS: set<string> :=
    {"if_action", "range_action", "with_action", "define_action", "block_action", "template_action", "break_action",
     "continue_action"}

  const LITERAL_KINDS: set<string> := {"text", "yaml_no_injection_text"}

  /** What a parser guarantees: children lie inside their parent, in order. */
  predicate Nested(n: Tree) {
    n.start <= n.end && InOrder(n.children, n.start, n.end)
  }

  predicate InOrder(ns: seq<Tree>, lo: nat, hi: nat) {
    if ns == [] then lo <= hi
    else lo <= ns[0].start && Nested(ns[0]) && InOrder(ns[1..], ns[0].end, hi)
  }

  // ----- what the walk collects -----

  function Literals(n: Tree): seq<Span> {
    if n.kind in LITERAL_KINDS then [Span(n.start, n.end)] else LiteralsOf(n.children)
  }

  function LiteralsOf(ns: seq<Tree>): seq<Span> {
    if ns == [] then [] else Literals(ns[0]) + LiteralsOf(ns[1..])
  }

  /** Some node outside literal text is a control-flow action. */
  predicate Unstable(n: Tree) {
    n.kind in UNSTABLE_KINDS || (n.kind !in LITERAL_KINDS && UnstableAmong(n.children))
  }

  predicate UnstableAmong(ns: seq<Tree>) {
    ns != [] && (Unstable(ns[0]) || UnstableAmong(ns[1..]))
  }

  class RegionWalk {
    var spans: seq<Span>
    var unstable: bool

    constructor (hasError: bool)
      ensures spans == [] && unstable == hasError
    {
      spans := [];
      unstable := hasError;
    }

    method Visit(node: Tree)
      modifies this
      ensures spans == old(spans) + Literals(node)
      ensures unstable == (old(unstable) || Unstable(node))
      decreases node
    {
      if node.kind in UNSTABLE_KINDS {
        unstable := true;
      }
      if node.kind in LITERAL_KINDS {
        spans := spans + [Span(node.start, node.end)];
        return;
      }
      var i := 0;
      while i < |node.children|
        invariant 0 <= i <= |node.children|
        invariant spans + LiteralsOf(node.children[i..]) == old(spans) + LiteralsOf(node.children)
        invariant (unstable || UnstableAmong(node.children[i..])) ==
                  (old(unstable) || node.kind in UNSTABLE_KINDS || UnstableAmong(node.children))
      {
        Visit(node.children[i]);
        assert node.children[i..][1..] == node.children[i+1..];
        i := i + 1;
      }
    }
  }

  method TemplateRegions(root: Tree, hasError: bool) returns (spans: seq<Span>, unstable: bool)
    ensures spans == Literals(root)
    ensures unstable == (hasError || Unstable(root))
  {
    var walk := new RegionWalk(hasError);
    walk.Visit(root);
    spans, unstable := walk.spans, walk.unstable;
  }

  // ----- what is true of it -----

  /** Spans in source order, disjoint, inside `[lo, hi]`. */
  predicate Sorted(spans: seq<Span>, lo: nat, hi: nat) {
    if spans == [] then lo <= hi
    else lo <= spans[0].start <= spans[0].end && Sorted(spans[1..], spans[0].end, hi)
  }

  lemma {:induction false} SortedAppend(a: seq<Span>, b: seq<Span>, lo: nat, mid: nat, hi: nat)
    requires Sorted(a, lo, mid) && Sorted(b, mid, hi)
    ensures Sorted(a + b, lo, hi)
    decreases |a|
  {
    if a == [] {
      assert a + b == b;
      SortedWidens(b, lo, mid, hi, hi);
    } else {
      assert (a + b)[1..] == a[1..] + b;
      SortedAppend(a[1..], b, a[0].end, mid, hi);
    }
  }

  lemma {:induction false} SortedWidens(a: seq<Span>, lo: nat, lo': nat, hi': nat, hi: nat)
    requires lo <= lo' && hi' <= hi && Sorted(a, lo', hi')
    ensures Sorted(a, lo, hi)
    decreases |a|
  {
    if a != [] {
      SortedWidens(a[1..], a[0].end, a[0].end, hi', hi);
    }
  }

  /** The node at a path of child indexes is a literal, and no node above it is one. */
  predicate LiteralAt(n: Tree, path: seq<nat>, span: Span)
    decreases |path|
  {
    if path == [] then n.kind in LITERAL_KINDS && span == Span(n.start, n.end)
    else n.kind !in LITERAL_KINDS && path[0] < |n.children| && LiteralAt(n.children[path[0]], path[1..], span)
  }

  /** The node at a path is a control-flow action, and no node above it is a literal. */
  predicate ControlAt(n: Tree, path: seq<nat>)
    decreases |path|
  {
    if path == [] then n.kind in UNSTABLE_KINDS
    else n.kind !in LITERAL_KINDS && path[0] < |n.children| && ControlAt(n.children[path[0]], path[1..])
  }

  predicate IsLiteral(n: Tree, path: seq<nat>, span: Span) {
    LiteralAt(n, path, span)
  }

  predicate IsControl(n: Tree, path: seq<nat>) {
    ControlAt(n, path)
  }

  lemma {:induction false} LiteralHasPath(n: Tree, span: Span) returns (path: seq<nat>)
    requires span in Literals(n)
    ensures LiteralAt(n, path, span)
    decreases n
  {
    path := [];
    if n.kind !in LITERAL_KINDS {
      LiteralsAmong(n.children, span);
      var k: nat :| k < |n.children| && span in Literals(n.children[k]);
      var below := LiteralHasPath(n.children[k], span);
      path := [k] + below;
      assert path[1..] == below;
    }
  }

  lemma {:induction false} PathHasLiteral(n: Tree, span: Span, path: seq<nat>)
    requires LiteralAt(n, path, span)
    ensures span in Literals(n)
    decreases |path|
  {
    if path != [] {
      PathHasLiteral(n.children[path[0]], span, path[1..]);
      LiteralsAmong(n.children, span);
    }
  }

  /** The walk collects exactly the outermost literals, wherever they stand in the tree. */
  lemma LiteralsExactly(n: Tree, span: Span)
    ensures span in Literals(n) <==> exists path: seq<nat> :: IsLiteral(n, path, span)
  {
    if span in Literals(n) {
      var path := LiteralHasPath(n, span);
      assert IsLiteral(n, path, span);
    }
    forall path: seq<nat> | IsLiteral(n, path, span) ensures span in Literals(n) {
      PathHasLiteral(n, span, path);
    }
  }

  lemma {:induction false} LiteralsAmong(ns: seq<Tree>, span: Span)
    ensures span in LiteralsOf(ns) <==> exists k: nat :: k < |ns| && span in Literals(ns[k])
    decreases |ns|
  {
    if ns != [] {
      LiteralsAmong(ns[1..], span);
      if span in LiteralsOf(ns[1..]) {
        var k: nat :| k < |ns[1..]| && span in Literals(ns[1..][k]);
        assert span in Literals(ns[k+1]);
      }
      if k: nat :| 0 < k < |ns| && span in Literals(ns[k]) {
        assert span in Literals(ns[1..][k-1]);
      }
    }
  }

  lemma {:induction false} ControlHasPath(n: Tree) returns (path: seq<nat>)
    requires Unstable(n)
    ensures ControlAt(n, path)
    decreases n
  {
    path := [];
    if n.kind !in UNSTABLE_KINDS {
      UnstableAmongAny(n.children);
      var k: nat :| k < |n.children| && Unstable(n.children[k]);
      var below := ControlHasPath(n.children[k]);
      path := [k] + below;
      assert path[1..] == below;
    }
  }

  lemma {:induction false} PathHasControl(n: Tree, path: seq<nat>)
    requires ControlAt(n, path)
    ensures Unstable(n)
    decreases |path|
  {
    if path != [] {
      PathHasControl(n.children[path[0]], path[1..]);
      UnstableAmongAny(n.children);
    }
  }

  /** A tree is unstable exactly when it has a control-flow action that is not inside a literal. */
  lemma UnstableExactly(n: Tree)
    ensures Unstable(n) <==> exists path: seq<nat> :: IsControl(n, path)
  {
    if Unstable(n) {
      var path := ControlHasPath(n);
      assert IsControl(n, path);
    }
    forall path: seq<nat> | IsControl(n, path) ensures Unstable(n) {
      PathHasControl(n, path);
    }
  }

  lemma {:induction false} UnstableAmongAny(ns: seq<Tree>)
    ensures UnstableAmong(ns) <==> exists k: nat :: k < |ns| && Unstable(ns[k])
    decreases |ns|
  {
    if ns != [] {
      UnstableAmongAny(ns[1..]);
      if UnstableAmong(ns[1..]) {
        var k: nat :| k < |ns[1..]| && Unstable(ns[1..][k]);
        assert Unstable(ns[k+1]);
      }
      if k: nat :| 0 < k < |ns| && Unstable(ns[k]) {
        assert Unstable(ns[1..][k-1]);
      }
    }
  }

  /** The literals of a well-formed tree come out sorted and disjoint, inside the tree. */
  lemma {:induction false} LiteralsSorted(n: Tree)
    requires Nested(n)
    ensures Sorted(Literals(n), n.start, n.end)
    decreases n, 0
  {
    if n.kind in LITERAL_KINDS {
      assert Sorted([], n.end, n.end);
    } else {
      LiteralsOfSorted(n.children, n.start, n.end, n);
    }
  }

  lemma {:induction false} LiteralsOfSorted(ns: seq<Tree>, lo: nat, hi: nat, parent: Tree)
    requires InOrder(ns, lo, hi)
    requires forall k | 0 <= k < |ns| :: ns[k] < parent
    ensures Sorted(LiteralsOf(ns), lo, hi)
    decreases parent, 0, |ns|
  {
    if ns != [] {
      LiteralsSorted(ns[0]);
      LiteralsOfSorted(ns[1..], ns[0].end, hi, parent);
      SortedWidens(Literals(ns[0]), lo, ns[0].start, ns[0].end, ns[0].end);
      SortedAppend(Literals(ns[0]), LiteralsOf(ns[1..]), lo, ns[0].end, hi);
    }
  }

  lemma {:induction false} SortedAt(spans: seq<Span>, lo: nat, hi: nat, k: nat)
    requires Sorted(spans, lo, hi) && k < |spans|
    ensures lo <= spans[k].start <= spans[k].end <= hi
    decreases |spans|
  {
    if k > 0 {
      SortedAt(spans[1..], spans[0].end, hi, k - 1);
    } else {
      SortedBounds(spans[1..], spans[0].end, hi);
    }
  }

  lemma {:induction false} SortedBounds(spans: seq<Span>, lo: nat, hi: nat)
    requires Sorted(spans, lo, hi)
    ensures lo <= hi
    decreases |spans|
  {
    if spans != [] {
      SortedBounds(spans[1..], spans[0].end, hi);
    }
  }

  predicate Covers(s: Span, i: nat) {
    s.start <= i < s.end
  }

  predicate Within(spans: seq<Span>, i: nat) {
    exists k | 0 <= k < |spans| :: Covers(spans[k], i)
  }

  lemma WithinCons(spans: seq<Span>, i: nat)
    requires spans != []
    ensures Within(spans, i) <==> Covers(spans[0], i) || Within(spans[1..], i)
  {
    if Within(spans, i) && !Covers(spans[0], i) {
      var k :| 0 <= k < |spans| && Covers(spans[k], i);
      assert Covers(spans[1..][k-1], i);
    }
    if Within(spans[1..], i) {
      var k :| 0 <= k < |spans[1..]| && Covers(spans[1..][k], i);
      assert Covers(spans[k+1], i);
    }
  }

  lemma SortedCovers(spans: seq<Span>, lo: nat, hi: nat, i: nat)
    requires Sorted(spans, lo, hi) && Within(spans, i)
    ensures lo <= i < hi
  {
    var k :| 0 <= k < |spans| && Covers(spans[k], i);
    SortedAt(spans, lo, hi, k);
  }
}
