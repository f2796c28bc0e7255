/** Turning a template into host-language text by masking its actions in place. */
module Projections {
  import opened Options
  import opened Strings
  import opened Utf8
  import opened Regions
  import opened Positions

  const TAB: byte := 9
  const CR: byte := 13
  const SPACE: byte := 32
  const DOLLAR: byte := 36
  const UNDERSCORE: byte := 95
  const PLACEHOLDER: byte := 120

  const OPEN: seq<byte> := [123, 123, 123]                  // {{{
  const TRIM_LEFT: seq<byte> := [123, 123, 123, 45]         // {{{-
  const TRIM_RIGHT: seq<byte> := [45, 125, 125, 125]        // -}}}
  const TO_YAML: seq<byte> := [84, 111, 89, 65, 77, 76]     // ToYAML
  const COMMENT: seq<byte> := [123, 123, 123, 47, 42]       // {{{/*
  const HEREDOC: seq<byte> := [60, 60]                      // <<

  datatype Projection = Projection(
    source: seq<byte>, text: seq<byte>, literals: seq<Span>, synthetic: seq<Span>, safe: bool)

  datatype Host = Yaml | Bash | OtherHost

  predicate OccursAt(s: seq<byte>, pattern: seq<byte>, k: nat) {
    k + |pattern| <= |s| && s[k..k+|pattern|] == pattern
  }

  predicate Contains(s: seq<byte>, pattern: seq<byte>) {
    exists k: nat | k <= |s| :: OccursAt(s, pattern, k)
  }

  /** An action that leaves the layout around it alone: no trimming, no `ToYAML`, no comment. */
  predicate Tame(action: seq<byte>) {
    !Contains(action, TRIM_LEFT) && !Contains(action, TRIM_RIGHT) && !Contains(action, TO_YAML) &&
    !Contains(action, COMMENT)
  }

  // ----- the regions between literals -----

  /** The non-empty gaps that sorted literals leave in `[last, end)`. */
  function Gaps(literals: seq<Span>, last: nat, end: nat): seq<Span>
    decreases |literals|
  {
    if literals == [] then (if end > last then [Span(last, end)] else [])
    else (if literals[0].start > last then [Span(last, literals[0].start)] else [])
         + Gaps(literals[1..], literals[0].end, end)
  }

  predicate LineBreak(b: byte) {
    b == CR || b == LF
  }

  predicate InText(spans: seq<Span>, source: seq<byte>) {
    forall s | s in spans :: s.start < s.end <= |source|
  }

  function Slice(source: seq<byte>, s: Span): seq<byte>
    requires s.start <= s.end <= |source|
  {
    source[s.start..s.end]
  }

  /** Every action up to and including the `k`-th is tame, and the tree is stable. */
  predicate SafeUpTo(source: seq<byte>, actions: seq<Span>, stable: bool, k: nat)
    requires InText(actions, source) && k <= |actions|
  {
    if k == 0 then stable
    else SafeUpTo(source, actions, stable, k - 1) && Tame(Slice(source, actions[k-1]))
  }

  /** An action gets a placeholder if it is an expression and nothing unsafe came before it. */
  predicate Placed(source: seq<byte>, actions: seq<Span>, stable: bool, k: nat)
    requires InText(actions, source) && k < |actions|
  {
    SafeUpTo(source, actions, stable, k + 1) && HasPrefix(Slice(source, actions[k]), OPEN)
  }

  predicate Solid(b: byte) {
    b != CR && b != LF && b != SPACE && b != TAB
  }

  function FirstSolid(source: seq<byte>, i: nat, end: nat): (f: nat)
    requires i <= end <= |source|
    ensures i <= f <= end && (f < end ==> Solid(source[f]))
    ensures forall k | i <= k < f :: !Solid(source[k])
    decreases end - i
  {
    if i == end || Solid(source[i]) then i else FirstSolid(source, i + 1, end)
  }

  /** Inside an action every byte but CR and LF becomes a space, and the first that was not blank becomes `x` if placed. */
  function MaskedByte(text: seq<byte>, action: Span, placed: bool, i: nat): byte
    requires action.start <= i < action.end <= |text|
  {
    if LineBreak(text[i]) then text[i]
    else if placed && i == FirstSolid(text, action.start, action.end) then PLACEHOLDER
    else SPACE
  }

  function MaskOne(text: seq<byte>, action: Span, placed: bool): (r: seq<byte>)
    requires action.end <= |text|
    ensures |r| == |text|
    ensures forall i: nat | i < |text| ::
              r[i] == if Covers(action, i) then MaskedByte(text, action, placed, i) else text[i]
  {
    seq(|text|, (i: nat) requires i < |text| => if Covers(action, i) then MaskedByte(text, action, placed, i) else text[i])
  }

  /** The text once the first `n` actions are masked. */
  function MaskedText(source: seq<byte>, actions: seq<Span>, stable: bool, n: nat): (r: seq<byte>)
    requires InText(actions, source) && n <= |actions|
    ensures |r| == |source|
  {
    if n == 0 then source
    else MaskOne(MaskedText(source, actions, stable, n - 1), actions[n-1], Placed(source, actions, stable, n - 1))
  }

  datatype Masking = Masking(text: seq<byte>, spans: seq<Span>)

  /** Masks each candidate offset that holds a `$` when its turn comes. */
  function MaskRun(m: Masking, candidates: seq<nat>): Masking
    decreases |candidates|
  {
    if candidates == [] then m
    else
      var at := candidates[0];
      MaskRun(if at < |m.text| && m.text[at] == DOLLAR
              then Masking(m.text[at := UNDERSCORE], m.spans + [Span(at, at + 1)]) else m,
              candidates[1..])
  }

  // ----- facts about gaps -----

  lemma {:induction false} GapsSorted(literals: seq<Span>, last: nat, end: nat)
    requires Sorted(literals, last, end)
    ensures Sorted(Gaps(literals, last, end), last, end)
    ensures forall s | s in Gaps(literals, last, end) :: last <= s.start < s.end <= end
    decreases |literals|
  {
    if literals == [] {
    } else {
      var l := literals[0];
      SortedBounds(literals[1..], l.end, end);
      GapsSorted(literals[1..], l.end, end);
      var rest := Gaps(literals[1..], l.end, end);
      if l.start > last {
        assert ([Span(last, l.start)] + rest)[1..] == rest;
        SortedWidens(rest, l.start, l.end, end, end);
      } else {
        assert [] + rest == rest;
        SortedWidens(rest, last, l.end, end, end);
      }
    }
  }

  /** Literals and gaps tile the text: every offset is in exactly one of them. */
  lemma {:induction false} GapsTile(literals: seq<Span>, last: nat, end: nat, i: nat)
    requires Sorted(literals, last, end) && last <= i < end
    ensures Within(Gaps(literals, last, end), i) <==> !Within(literals, i)
    decreases |literals|
  {
    var gaps := Gaps(literals, last, end);
    if literals == [] {
      assert Covers(gaps[0], i);
    } else {
      var l := literals[0];
      var rest := Gaps(literals[1..], l.end, end);
      WithinCons(literals, i);
      GapsSorted(literals[1..], l.end, end);
      if l.start > last {
        WithinCons(gaps, i);
        assert gaps[1..] == rest;
      } else {
        assert gaps == rest;
      }
      if i >= l.end {
        GapsTile(literals[1..], l.end, end, i);
      } else {
        if Within(rest, i) { SortedCovers(rest, l.end, end, i); }
        if Within(literals[1..], i) { SortedCovers(literals[1..], l.end, end, i); }
      }
    }
  }

  lemma {:induction false} SortedDisjoint(spans: seq<Span>, lo: nat, hi: nat, j: nat, k: nat)
    requires Sorted(spans, lo, hi) && j < k < |spans|
    ensures spans[j].end <= spans[k].start
    decreases |spans|
  {
    SortedAt(spans[1..], spans[0].end, hi, k - 1);
    if j > 0 {
      SortedDisjoint(spans[1..], spans[0].end, hi, j - 1, k - 1);
    }
  }

  /** The gaps still ahead once `k` of the literals, and the end marker after them, are passed. */
  ghost function GapsAhead(literals: seq<Span>, k: nat, last: nat, end: nat): seq<Span> {
    if k <= |literals| then Gaps(literals[k..], last, end) else []
  }

  ghost predicate StillSorted(literals: seq<Span>, k: nat, last: nat, end: nat) {
    k <= |literals| ==> Sorted(literals[k..], last, end)
  }

  lemma AheadStep(literals: seq<Span>, k: nat, last: nat, end: nat)
    requires k <= |literals| && last <= end && StillSorted(literals, k, last, end)
    ensures var l := (literals + [Span(end, end)])[k];
            last <= l.start <= l.end <= end && StillSorted(literals, k + 1, l.end, end) &&
            GapsAhead(literals, k, last, end) ==
            (if l.start > last then [Span(last, l.start)] else []) + GapsAhead(literals, k + 1, l.end, end)
  {
    if k < |literals| {
      assert literals[k..][1..] == literals[k+1..];
      SortedAt(literals[k..], last, end, 0);
    }
  }

  /** The masking loop before its `k`-th literal: the gaps it has passed, and those to come. */
  ghost predicate Passed(literals: seq<Span>, end: nat, k: nat, last: nat, passed: seq<Span>) {
    last <= end && StillSorted(literals, k, last, end) &&
    Gaps(literals, 0, end) == passed + GapsAhead(literals, k, last, end)
  }

  lemma PassedStep(literals: seq<Span>, end: nat, k: nat, last: nat, passed: seq<Span>, literal: Span)
    requires Passed(literals, end, k, last, passed)
    requires k <= |literals| && literal == (literals + [Span(end, end)])[k]
    ensures last <= literal.start <= literal.end <= end
    ensures literal.start > last ==>
              |passed| < |Gaps(literals, 0, end)| && Gaps(literals, 0, end)[|passed|] == Span(last, literal.start) &&
              Passed(literals, end, k + 1, literal.end, passed + [Span(last, literal.start)])
    ensures literal.start == last ==> Passed(literals, end, k + 1, literal.end, passed)
  {
    AheadStep(literals, k, last, end);
    var gap := Span(last, literal.start);
    var rest := GapsAhead(literals, k + 1, literal.end, end);
    if literal.start > last {
      assert passed + ([gap] + rest) == (passed + [gap]) + rest;
    } else {
      assert [] + rest == rest;
    }
  }

  lemma PassedAll(literals: seq<Span>, end: nat, last: nat, passed: seq<Span>)
    requires Passed(literals, end, |literals| + 1, last, passed)
    ensures passed == Gaps(literals, 0, end)
  {
    assert passed + [] == passed;
  }

  /** Masking earlier actions leaves the bytes after them alone. */
  lemma {:induction false} MaskedTextBeyond(source: seq<byte>, actions: seq<Span>, stable: bool, n: nat, i: nat)
    requires InText(actions, source) && Sorted(actions, 0, |source|) && n <= |actions| && i < |source|
    requires forall k: nat | k < n :: !Covers(actions[k], i)
    ensures MaskedText(source, actions, stable, n)[i] == source[i]
    decreases n
  {
    if n > 0 {
      MaskedTextBeyond(source, actions, stable, n - 1, i);
    }
  }

  /** What each byte of the masked text is. */
  lemma {:induction false} MaskedTextAt(source: seq<byte>, actions: seq<Span>, stable: bool, n: nat, k: nat, i: nat)
    requires InText(actions, source) && Sorted(actions, 0, |source|) && k < n <= |actions| && Covers(actions[k], i)
    ensures actions[k] in actions && i < |source|
    ensures MaskedText(source, actions, stable, n)[i] ==
            MaskedByte(source, actions[k], Placed(source, actions, stable, k), i)
    decreases n
  {
    assert actions[k] in actions;
    if k < n - 1 {
      SortedDisjoint(actions, 0, |source|, k, n - 1);
      MaskedTextAt(source, actions, stable, n - 1, k, i);
    } else {
      var before := MaskedText(source, actions, stable, k);
      UntouchedAhead(source, actions, stable, k, actions[k]);
      SameFirstSolid(before, source, actions[k].start, actions[k].end);
    }
  }

  /** An action still holds its source when its turn comes. */
  lemma UntouchedAhead(source: seq<byte>, actions: seq<Span>, stable: bool, n: nat, action: Span)
    requires InText(actions, source) && Sorted(actions, 0, |source|) && n < |actions| && action == actions[n]
    ensures action.start < action.end <= |source|
    ensures forall i: nat | Covers(action, i) :: MaskedText(source, actions, stable, n)[i] == source[i]
  {
    assert actions[n] in actions;
    forall i: nat | Covers(action, i) ensures MaskedText(source, actions, stable, n)[i] == source[i] {
      forall k: nat | k < n ensures !Covers(actions[k], i) {
        SortedDisjoint(actions, 0, |source|, k, n);
      }
      MaskedTextBeyond(source, actions, stable, n, i);
    }
  }

  lemma {:induction false} SameFirstSolid(c: seq<byte>, d: seq<byte>, i: nat, end: nat)
    requires i <= end <= |c| == |d|
    requires forall k: nat | i <= k < end :: c[k] == d[k]
    ensures FirstSolid(c, i, end) == FirstSolid(d, i, end)
    decreases end - i
  {
    if i < end {
      SameFirstSolid(c, d, i + 1, end);
    }
  }

  // ----- the method -----

  /** Masks one action: every byte but CR and LF becomes a space, then the first byte that held something else becomes
      `x` if `place` is set. */
  method MaskAction(source: seq<byte>, output: array<byte>, action: Span, place: bool)
    requires output.Length == |source| && action.start < action.end <= |source|
    requires forall i: nat | Covers(action, i) :: output[i] == source[i]
    modifies output
    ensures output[..] == MaskOne(old(output[..]), action, place)
  {
    ghost var text := output[..];
    for i := action.start to action.end
      invariant forall k: nat | action.start <= k < i :: output[k] == MaskedByte(text, action, false, k)
      invariant forall k: nat | k < |source| && !(action.start <= k < i) :: output[k] == text[k]
    {
      if output[i] != CR && output[i] != LF {
        output[i] := SPACE;
      }
    }
    if place {
      var i := action.start;
      while i < action.end
        invariant action.start <= i <= FirstSolid(text, action.start, action.end)
        invariant forall k: nat | Covers(action, k) :: output[k] == MaskedByte(text, action, false, k)
        invariant forall k: nat | k < |source| && !Covers(action, k) :: output[k] == text[k]
      {
        if output[i] == SPACE && source[i] != SPACE && source[i] != TAB {
          output[i] := PLACEHOLDER;
          break;
        }
        i := i + 1;
      }
    }
  }

  lemma NextMasked(source: seq<byte>, actions: seq<Span>, stable: bool, n: nat, bytes: seq<byte>, place: bool, safe: bool,
                   before: seq<byte>, after: seq<byte>)
    requires InText(actions, source) && n < |actions| && bytes == Slice(source, actions[n])
    requires before == MaskedText(source, actions, stable, n) && after == MaskOne(before, actions[n], place)
    requires safe == (SafeUpTo(source, actions, stable, n) && Tame(bytes)) && place == (safe && HasPrefix(bytes, OPEN))
    ensures after == MaskedText(source, actions, stable, n + 1) && safe == SafeUpTo(source, actions, stable, n + 1)
  {
  }

  /** Masks the next action, and gives the verdict up to it. */
  method MaskNext(source: seq<byte>, output: array<byte>, ghost actions: seq<Span>, ghost n: nat, ghost stable: bool,
                  action: Span, safe: bool) returns (tame: bool, ghost m: nat)
    requires InText(actions, source) && Sorted(actions, 0, |source|) && n < |actions| && action == actions[n]
    requires output[..] == MaskedText(source, actions, stable, n) && safe == SafeUpTo(source, actions, stable, n)
    modifies output
    ensures m == n + 1
    ensures output[..] == MaskedText(source, actions, stable, m) && tame == SafeUpTo(source, actions, stable, m)
  {
    var bytes := source[action.start..action.end];
    ghost var before := output[..];
    UntouchedAhead(source, actions, stable, n, action);
    tame := safe && Tame(bytes);
    var place := tame && HasPrefix(bytes, OPEN);
    MaskAction(source, output, action, place);
    NextMasked(source, actions, stable, n, bytes, place, tame, before, output[..]);
    m := n + 1;
  }

  /** Masks what lies between the literals, and tells whether every action was tame. */
  method MaskActions(source: seq<byte>, output: array<byte>, literals: seq<Span>, stable: bool)
    returns (synthetic: seq<Span>, safe: bool)
    requires Sorted(literals, 0, |source|) && output[..] == source
    modifies output
    ensures synthetic == Gaps(literals, 0, |source|) && InText(synthetic, source)
    ensures output[..] == MaskedText(source, synthetic, stable, |synthetic|)
    ensures safe == SafeUpTo(source, synthetic, stable, |synthetic|)
  {
    ghost var actions := Gaps(literals, 0, |source|);
    GapsSorted(literals, 0, |source|);
    safe := stable;
    synthetic := [];
    var last: nat := 0;
    var ends := literals + [Span(|source|, |source|)];
    ghost var n := 0;
    for k := 0 to |ends|
      invariant Passed(literals, |source|, k, last, synthetic)
      invariant n == |synthetic| <= |actions|
      invariant output[..] == MaskedText(source, actions, stable, n)
      invariant safe == SafeUpTo(source, actions, stable, n)
    {
      var literal := ends[k];
      PassedStep(literals, |source|, k, last, synthetic, literal);
      if literal.start > last {
        var action := Span(last, literal.start);
        safe, n := MaskNext(source, output, actions, n, stable, action, safe);
        synthetic := synthetic + [action];
      }
      last := literal.end;
    }
    PassedAll(literals, |source|, last, synthetic);
  }

  /** Replaces the `$` at each candidate offset that still holds one, recording a one-byte synthetic span for each. The
      candidates are the offsets that the pattern matching and the YAML decoder pick out. */
  method MaskSelectors(output: array<byte>, synthetic: seq<Span>, candidates: seq<nat>) returns (spans: seq<Span>)
    modifies output
    ensures Masking(output[..], spans) == MaskRun(Masking(old(output[..]), synthetic), candidates)
  {
    spans := synthetic;
    for k := 0 to |candidates|
      invariant MaskRun(Masking(output[..], spans), candidates[k..]) ==
                MaskRun(Masking(old(output[..]), synthetic), candidates)
    {
      var at := candidates[k];
      assert candidates[k..][1..] == candidates[k+1..];
      ghost var before := output[..];
      if at < output.Length && output[at] == DOLLAR {
        output[at] := UNDERSCORE;
        spans := spans + [Span(at, at + 1)];
        assert output[..] == before[at := UNDERSCORE];
      }
    }
  }

  /** The input of a projection. `literals` and `unstable` come from the syntax tree; `blockScalar` says whether the YAML
      block-scalar pattern matches the source, and `candidates` where the schema-selector matching found a `$`. */
  datatype Template = Template(source: seq<byte>, host: Host, literals: seq<Span>, unstable: bool, blockScalar: bool,
                               candidates: seq<nat>)

  ghost predicate ValidTemplate(t: Template) {
    Sorted(t.literals, 0, |t.source|)
  }

  function Actions(t: Template): (actions: seq<Span>)
    requires ValidTemplate(t)
    ensures InText(actions, t.source) && Sorted(actions, 0, |t.source|)
  {
    GapsSorted(t.literals, 0, |t.source|);
    Gaps(t.literals, 0, |t.source|)
  }

  function ProjectionOf(t: Template): Projection
    requires ValidTemplate(t)
  {
    var actions := Actions(t);
    var masked := Masking(MaskedText(t.source, actions, !t.unstable, |actions|), actions);
    var m := if t.host == Yaml then MaskRun(masked, t.candidates) else masked;
    var fragile := if t.host == Yaml then t.blockScalar else Contains(t.source, HEREDOC);
    Projection(t.source, m.text, t.literals, m.spans,
               SafeUpTo(t.source, actions, !t.unstable, |actions|) && (m.spans == [] || !fragile))
  }

  method MakeProjection(t: Template) returns (r: Option<Projection>)
    requires ValidTemplate(t)
    ensures r == if t.host == OtherHost then None else Some(ProjectionOf(t))
  {
    var output := new byte[|t.source|](i requires 0 <= i < |t.source| => t.source[i]);
    assert output[..] == t.source;
    var synthetic, safe := MaskActions(t.source, output, t.literals, !t.unstable);
    if t.host != Yaml && t.host != Bash {
      return None;
    }
    if t.host == Yaml {
      synthetic := MaskSelectors(output, synthetic, t.candidates);
    }
    if |synthetic| > 0 && ((t.host == Yaml && t.blockScalar) || (t.host == Bash && Contains(t.source, HEREDOC))) {
      safe := false;
    }
    r := Some(Projection(t.source, output[..], t.literals, synthetic, safe));
  }

  // ----- what is true of every projection -----

  lemma {:induction false} MaskRunFacts(m: Masking, candidates: seq<nat>)
    ensures var r := MaskRun(m, candidates);
            |r.text| == |m.text| && m.spans <= r.spans &&
            (forall k | |m.spans| <= k < |r.spans| :: r.spans[k].end == r.spans[k].start + 1 <= |m.text|) &&
            (forall i: nat | i < |m.text| && r.text[i] != m.text[i] ::
               m.text[i] == DOLLAR && r.text[i] == UNDERSCORE && Span(i, i + 1) in r.spans)
    decreases |candidates|
  {
    if candidates != [] {
      var at := candidates[0];
      if at < |m.text| && m.text[at] == DOLLAR {
        var n := Masking(m.text[at := UNDERSCORE], m.spans + [Span(at, at + 1)]);
        MaskRunFacts(n, candidates[1..]);
        assert n.spans[|m.spans|] == MaskRun(n, candidates[1..]).spans[|m.spans|];
      } else {
        MaskRunFacts(m, candidates[1..]);
      }
    }
  }

  /** Exactly the candidates that hold a `$` are masked. */
  lemma {:induction false} SelectorsMasked(m: Masking, candidates: seq<nat>, i: nat)
    requires i < |m.text|
    ensures |MaskRun(m, candidates).text| == |m.text|
    ensures MaskRun(m, candidates).text[i] == if i in candidates && m.text[i] == DOLLAR then UNDERSCORE else m.text[i]
    decreases |candidates|
  {
    if candidates != [] {
      var at := candidates[0];
      assert i in candidates <==> i == at || i in candidates[1..];
      SelectorsMasked(
        if at < |m.text| && m.text[at] == DOLLAR
        then Masking(m.text[at := UNDERSCORE], m.spans + [Span(at, at + 1)]) else m, candidates[1..], i);
    }
  }

  /** Tiling and masking, byte by byte. Literals and actions tile the source. In action spans the projection holds only
      spaces, `x`, CR and LF, with CR and LF exactly where the source has them; in literals it is the source, except that
      every selected `$`, and nothing else, reads `_`. */
  lemma ProjectionBytes(t: Template, i: nat)
    requires ValidTemplate(t) && i < |t.source|
    ensures var p, inLiteral := ProjectionOf(t), Within(t.literals, i);
            |p.text| == |t.source| &&
            (Within(Actions(t), i) <==> !inLiteral) &&
            (!inLiteral ==> if t.source[i] == '\r' as int || t.source[i] == '\n' as int then p.text[i] == t.source[i]
                            else p.text[i] == ' ' as int || p.text[i] == 'x' as int) &&
            (inLiteral ==> p.text[i] == if t.host == Yaml && t.source[i] == '$' as int && i in t.candidates
                                        then '_' as int else t.source[i]) &&
            (p.text[i] != t.source[i] ==> Within(p.synthetic, i))
  {
    var p, actions := ProjectionOf(t), Actions(t);
    var masked := MaskedText(t.source, actions, !t.unstable, |actions|);
    GapsTile(t.literals, 0, |t.source|, i);
    MaskRunFacts(Masking(masked, actions), t.candidates);
    if Within(actions, i) {
      var k :| 0 <= k < |actions| && Covers(actions[k], i);
      MaskedTextAt(t.source, actions, !t.unstable, |actions|, k, i);
      assert p.synthetic[k] == actions[k];
    } else {
      forall k: nat | k < |actions| ensures !Covers(actions[k], i) {}
      MaskedTextBeyond(t.source, actions, !t.unstable, |actions|, i);
      SelectorsMasked(Masking(masked, actions), t.candidates, i);
      if p.text[i] != t.source[i] {
        var k :| 0 <= k < |p.synthetic| && p.synthetic[k] == Span(i, i + 1);
        assert Covers(p.synthetic[k], i);
      }
    }
  }

  predicate SaysAt(text: seq<byte>, word: string, k: nat) {
    k + |word| <= |text| && forall j | 0 <= j < |word| :: text[k+j] == word[j] as int
  }

  /** A word stands in a text of bytes. */
  predicate Says(text: seq<byte>, word: string) {
    exists k: nat | k <= |text| :: SaysAt(text, word, k)
  }

  /** An action that does not trim, is no comment and inserts no generated YAML. */
  predicate Plain(action: seq<byte>) {
    !Says(action, "{{{-") && !Says(action, "-}}}") && !Says(action, "ToYAML") && !Says(action, "{{{/*")
  }

  predicate Spells(pattern: seq<byte>, word: string) {
    |pattern| == |word| && forall j | 0 <= j < |word| :: pattern[j] == word[j] as int
  }

  lemma SaysOccurs(text: seq<byte>, word: string, pattern: seq<byte>, k: nat)
    requires Spells(pattern, word)
    ensures OccursAt(text, pattern, k) <==> SaysAt(text, word, k)
  {
    if SaysAt(text, word, k) {
      forall j | 0 <= j < |pattern| ensures text[k..k+|pattern|][j] == pattern[j] {
        assert text[k+j] == word[j] as int;
      }
      assert text[k..k+|pattern|] == pattern;
    }
  }

  lemma SaysContains(text: seq<byte>, word: string, pattern: seq<byte>)
    requires Spells(pattern, word)
    ensures Contains(text, pattern) <==> Says(text, word)
  {
    forall k: nat | k <= |text| ensures OccursAt(text, pattern, k) <==> SaysAt(text, word, k) {
      SaysOccurs(text, word, pattern, k);
    }
  }

  lemma PlainIsTame(action: seq<byte>)
    ensures Tame(action) <==> Plain(action)
  {
    SaysContains(action, "{{{-", TRIM_LEFT);
    SaysContains(action, "-}}}", TRIM_RIGHT);
    SaysContains(action, "ToYAML", TO_YAML);
    SaysContains(action, "{{{/*", COMMENT);
  }

  /** The placeholder is an `x` in place of the first byte of an action, and no other byte of it: of exactly those actions that open
      with braces and, like all before them in a stable tree, are plain. */
  lemma PlaceholderAtStart(t: Template, k: nat, i: nat)
    requires ValidTemplate(t) && k < |Actions(t)| && Covers(Actions(t)[k], i)
    ensures var p, action := ProjectionOf(t), Slice(t.source, Actions(t)[k]);
            i < |p.text| && (p.text[i] == 'x' as int <==>
                             i == Actions(t)[k].start && SaysAt(action, "{{{", 0) && !t.unstable &&
                             forall s | s in Actions(t)[..k+1] :: Plain(Slice(t.source, s)))
  {
    var actions := Actions(t);
    MaskRunFacts(Masking(MaskedText(t.source, actions, !t.unstable, |actions|), actions), t.candidates);
    MaskedTextAt(t.source, actions, !t.unstable, |actions|, k, i);
    PlacedExactly(t.source, actions, !t.unstable, k);
    if Placed(t.source, actions, !t.unstable, k) {
      assert t.source[actions[k].start] == Slice(t.source, actions[k])[0] == OPEN[0];
    }
  }

  lemma PlacedExactly(source: seq<byte>, actions: seq<Span>, stable: bool, k: nat)
    requires InText(actions, source) && k < |actions|
    ensures Placed(source, actions, stable, k) <==>
            stable && SaysAt(Slice(source, actions[k]), "{{{", 0) && forall s | s in actions[..k+1] :: Plain(Slice(source, s))
  {
    SafeMeansTame(source, actions, stable, k + 1);
    forall s | s in actions[..k+1] ensures Tame(Slice(source, s)) <==> Plain(Slice(source, s)) {
      PlainIsTame(Slice(source, s));
    }
    OpensWith(Slice(source, actions[k]));
  }

  lemma OpensWith(action: seq<byte>)
    ensures HasPrefix(action, OPEN) <==> SaysAt(action, "{{{", 0)
  {
    SaysOccurs(action, "{{{", OPEN, 0);
    assert action[0..] == action;
  }

  /** A projection is trusted exactly when the tree is stable, every action is plain, and neither a block scalar nor a
      heredoc could swallow a synthetic byte. */
  lemma SafeExactly(t: Template)
    requires ValidTemplate(t)
    ensures ProjectionOf(t).safe <==>
            !t.unstable && (forall s | s in Actions(t) :: Plain(Slice(t.source, s))) &&
            (ProjectionOf(t).synthetic == [] || !(if t.host == Yaml then t.blockScalar else Says(t.source, "<<")))
  {
    SafeMeansTame(t.source, Actions(t), !t.unstable, |Actions(t)|);
    forall s | s in Actions(t) ensures Tame(Slice(t.source, s)) <==> Plain(Slice(t.source, s)) {
      PlainIsTame(Slice(t.source, s));
    }
    SaysContains(t.source, "<<", HEREDOC);
    assert Actions(t)[..|Actions(t)|] == Actions(t);
  }

  lemma {:induction false} SafeMeansTame(source: seq<byte>, actions: seq<Span>, stable: bool, n: nat)
    requires InText(actions, source) && n <= |actions|
    ensures SafeUpTo(source, actions, stable, n) <==> stable && forall s | s in actions[..n] :: Tame(Slice(source, s))
    decreases n
  {
    if n > 0 {
      SafeMeansTame(source, actions, stable, n - 1);
      assert actions[..n] == actions[..n-1] + [actions[n-1]];
    }
  }

  /** What the mapping of diagnostics relies on. */
  ghost predicate Faithful(p: Projection) {
    |p.text| == |p.source| &&
    Sorted(p.literals, 0, |p.source|) &&
    (forall s | s in p.synthetic :: s.start < s.end <= |p.source|) &&
    (forall i: nat | i < |p.source| :: FaithfulAt(p, i))
  }

  ghost predicate FaithfulAt(p: Projection, i: nat)
    requires i < |p.source| == |p.text|
  {
    (LineBreak(p.text[i]) || LineBreak(p.source[i]) ==> p.text[i] == p.source[i]) &&
    (p.text[i] != p.source[i] ==> Within(p.synthetic, i))
  }

  /** Every projection is faithful: same length, same CR and LF offsets, and it differs from its source only inside the
      synthetic spans it records. */
  lemma ProjectionFaithful(t: Template)
    requires ValidTemplate(t)
    ensures Faithful(ProjectionOf(t))
  {
    var p, actions := ProjectionOf(t), Actions(t);
    MaskRunFacts(Masking(MaskedText(t.source, actions, !t.unstable, |actions|), actions), t.candidates);
    forall i: nat | i < |t.source|
      ensures FaithfulAt(p, i)
    {
      ProjectionBytes(t, i);
    }
    forall k | 0 <= k < |p.synthetic|
      ensures p.synthetic[k].start < p.synthetic[k].end <= |t.source|
    {
      assert k < |actions| ==> p.synthetic[k] == actions[k] && actions[k] in actions;
    }
  }

  lemma {:induction false} SameNewlines(c: seq<byte>, d: seq<byte>, lo: nat, hi: nat)
    requires lo <= hi <= |c| == |d|
    requires forall i | lo <= i < hi :: c[i] == LF <==> d[i] == LF
    ensures Newlines(c, lo, hi) == Newlines(d, lo, hi)
    decreases hi - lo
  {
    if lo < hi {
      SameNewlines(c, d, lo + 1, hi);
    }
  }

  /** Masking moves no offset to another line, even an offset inside a masked multi-byte rune. */
  lemma ProjectionKeepsLines(p: Projection, o: nat)
    requires Faithful(p) && o <= |p.source|
    ensures PositionAt(p.text, o).line == PositionAt(p.source, o).line
    ensures Newlines(p.text, 0, o) == Newlines(p.source, 0, o)
  {
    forall i | 0 <= i < o ensures p.text[i] == LF <==> p.source[i] == LF {
      assert FaithfulAt(p, i);
    }
    SameNewlines(p.text, p.source, 0, o);
    PositionByLines(p.text, o);
    PositionByLines(p.source, o);
  }
}
