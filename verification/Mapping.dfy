/** Carrying a backend's diagnostic from the projection back to the template, or withholding it. */
module Mapping {
  import opened Options
  import opened Utf8
  import opened Regions
  import opened Positions
  import opened Projections

  datatype Range = Range(start: Position, end: Position)

  datatype Diagnostic = Diagnostic(range: Range, source: string, message: string)

  /** The offset a range end stands for: its own, or the end of its line if it lies past it. */
  ghost predicate EndsAt(text: seq<byte>, pos: Position, o: nat) {
    if exists e: nat :: Denotes(text, pos, e) then Denotes(text, pos, o)
    else EndsLine(text, o) && IsBoundary(text, o) &&
         PositionAt(text, o).line == pos.line && PositionAt(text, o).character <= pos.character
  }

  ghost predicate InOneLiteral(p: Projection, start: nat, end: nat) {
    exists k | 0 <= k < |p.literals| :: p.literals[k].start <= start < end <= p.literals[k].end
  }

  /** Some synthetic span has a byte, or its end, on a line of the range. */
  ghost predicate Touched(p: Projection, range: Range) {
    exists k | 0 <= k < |p.synthetic| :: Touches(p, range, p.synthetic[k])
  }

  predicate Touches(p: Projection, range: Range, s: Span) {
    PositionAt(p.text, s.start).line <= range.end.line && PositionAt(p.text, s.end).line >= range.start.line
  }

  ghost predicate Accepts(p: Projection, range: Range, start: nat, end: nat) {
    p.safe && Denotes(p.text, range.start, start) && EndsAt(p.text, range.end, end) &&
    InOneLiteral(p, start, end) && !Touched(p, range)
  }

  /** Exactly when a diagnostic is mapped, and to what. */
  ghost function Mapped(p: Projection, d: Diagnostic): (r: Option<Diagnostic>) {
    if exists start: nat, end: nat :: Accepts(p, d.range, start, end) then
      var start: nat, end: nat :| Accepts(p, d.range, start, end);
      Some(d.(range := Range(PositionAt(p.source, start), PositionAt(p.source, end))))
    else None
  }

  lemma EndsAtUnique(text: seq<byte>, pos: Position, a: nat, b: nat)
    requires EndsAt(text, pos, a) && EndsAt(text, pos, b)
    ensures a == b
  {
    if exists e: nat :: Denotes(text, pos, e) {
      DenotesUnique(text, pos, a, b);
    } else {
      SameLineEnd(text, a, b);
    }
  }

  /** A line has one end. */
  lemma SameLineEnd(text: seq<byte>, a: nat, b: nat)
    requires EndsLine(text, a) && EndsLine(text, b) && PositionAt(text, a).line == PositionAt(text, b).line
    ensures a == b
  {
    PositionByLines(text, a);
    PositionByLines(text, b);
    if a < b {
      NewlinesAdd(text, 0, a, b);
    } else if b < a {
      NewlinesAdd(text, 0, b, a);
    }
  }

  lemma MappedIs(p: Projection, d: Diagnostic, start: nat, end: nat)
    requires Accepts(p, d.range, start, end)
    ensures Mapped(p, d) == Some(d.(range := Range(PositionAt(p.source, start), PositionAt(p.source, end))))
  {
    forall s: nat, e: nat | Accepts(p, d.range, s, e) ensures s == start && e == end {
      DenotesUnique(p.text, d.range.start, s, start);
      EndsAtUnique(p.text, d.range.end, e, end);
    }
  }

  method MapDiagnostic(p: Projection, d: Diagnostic) returns (r: Diagnostic, ok: bool)
    ensures ok ==> Mapped(p, d) == Some(r)
    ensures !ok ==> Mapped(p, d) == None && r == d
  {
    if !p.safe {
      return d, false;
    }
    var start, validStart := ByteOffset(p.text, d.range.start);
    var end, validEnd := ByteOffset(p.text, d.range.end);
    if !validEnd {
      end, validEnd := ClampEndOfLine(p.text, d.range.end);
    }
    assert validEnd ==> EndsAt(p.text, d.range.end, end);
    assert !validEnd ==> forall e: nat :: !EndsAt(p.text, d.range.end, e);
    if !validStart || !validEnd || start > end {
      if validStart && validEnd {
        OnlyOffsets(p, d, start, end);
      }
      return d, false;
    }
    OnlyOffsets(p, d, start, end);
    var found := false;
    for k := 0 to |p.literals|
      invariant !found
      invariant forall j | 0 <= j < k :: !(p.literals[j].start <= start < end <= p.literals[j].end)
    {
      var literal := p.literals[k];
      if start >= literal.start && end <= literal.end && end > start {
        found := true;
        break;
      }
    }
    assert found <==> InOneLiteral(p, start, end);
    if !found {
      return d, false;
    }
    for k := 0 to |p.synthetic|
      invariant forall j | 0 <= j < k :: !Touches(p, d.range, p.synthetic[j])
    {
      var from := PositionOf(p.text, p.synthetic[k].start);
      var to := PositionOf(p.text, p.synthetic[k].end);
      if from.line <= d.range.end.line && to.line >= d.range.start.line {
        assert Touches(p, d.range, p.synthetic[k]);
        return d, false;
      }
    }
    assert Accepts(p, d.range, start, end);
    MappedIs(p, d, start, end);
    var first := PositionOf(p.source, start);
    var last := PositionOf(p.source, end);
    return d.(range := Range(first, last)), true;
  }

  lemma OnlyOffsets(p: Projection, d: Diagnostic, start: nat, end: nat)
    requires Denotes(p.text, d.range.start, start) && EndsAt(p.text, d.range.end, end)
    ensures forall s: nat, e: nat | Accepts(p, d.range, s, e) :: s == start && e == end
  {
    forall s: nat, e: nat | Accepts(p, d.range, s, e) ensures s == start && e == end {
      DenotesUnique(p.text, d.range.start, s, start);
      EndsAtUnique(p.text, d.range.end, e, end);
    }
  }

  // ----- soundness -----

  /** The line an offset is on. */
  function LineOf(c: seq<byte>, i: nat): nat
    requires i <= |c|
  {
    Newlines(c, 0, i)
  }

  /** The template and its projection agree on every line from `from` to `to`. */
  ghost predicate SameLines(p: Projection, from: nat, to: nat)
    requires |p.text| == |p.source|
  {
    forall i: nat | i < |p.source| && from <= LineOf(p.source, i) <= to :: p.text[i] == p.source[i]
  }

  /** An accepted range has no synthetic byte on any of its lines. */
  lemma AcceptedLinesSame(p: Projection, range: Range)
    requires Faithful(p) && !Touched(p, range)
    ensures SameLines(p, range.start.line, range.end.line)
  {
    forall i: nat | i < |p.source| && range.start.line <= LineOf(p.source, i) <= range.end.line
      ensures p.text[i] == p.source[i]
    {
      assert FaithfulAt(p, i);
      if Within(p.synthetic, i) {
        var k :| 0 <= k < |p.synthetic| && Covers(p.synthetic[k], i);
        var s := p.synthetic[k];
        assert s in p.synthetic;
        PositionByLines(p.text, s.start);
        PositionByLines(p.text, s.end);
        ProjectionKeepsLines(p, i);
        NewlinesAdd(p.text, 0, s.start, i);
        NewlinesAdd(p.text, 0, i, s.end);
        assert Touches(p, range, s);
      }
    }
  }

  /** The whole of a line lies on it. */
  lemma LineOfLine(c: seq<byte>, o: nat, k: nat)
    requires o <= |c| && LineStart(c, o) <= k <= LineEnd(c, o)
    ensures LineOf(c, k) == LineOf(c, o)
  {
    var s, e := LineStart(c, o), LineEnd(c, o);
    NoNewlines(c, s, k);
    NoNewlines(c, s, o);
    NewlinesAdd(c, 0, s, k);
    NewlinesAdd(c, 0, s, o);
  }

  /** On an untouched line the two texts hold the same bytes and begin the line at the same offset. */
  lemma SameLine(p: Projection, from: nat, to: nat, o: nat)
    requires Faithful(p) && SameLines(p, from, to) && o <= |p.source| && from <= LineOf(p.text, o) <= to
    ensures var s, e := LineStart(p.source, o), LineEnd(p.source, o);
            LineStart(p.text, o) == s && EndsLine(p.text, e) && forall k: nat | s <= k < e :: p.text[k] == p.source[k]
  {
    ProjectionKeepsLines(p, o);
    var s, e := LineStart(p.source, o), LineEnd(p.source, o);
    assert s > 0 ==> FaithfulAt(p, s - 1);
    assert e < |p.source| ==> FaithfulAt(p, e);
    forall k: nat | s <= k < e ensures p.text[k] == p.source[k] {
      LineOfLine(p.source, o, k);
    }
    LineStartUnique(p.text, o, s);
  }

  /** On a line where template and projection agree, every offset has the same position in both: the line feed before the
      line puts the decoder back in step, whatever was masked above. */
  lemma SamePosition(p: Projection, from: nat, to: nat, o: nat)
    requires Faithful(p) && SameLines(p, from, to) && o <= |p.source| && from <= LineOf(p.text, o) <= to
    ensures PositionAt(p.text, o) == PositionAt(p.source, o)
  {
    SameLine(p, from, to, o);
    var s, e := LineStart(p.source, o), LineEnd(p.source, o);
    assert p.text[s..o] == p.source[s..o];
    SameWidth(p.text, s, p.source, s, o - s);
    ProjectionKeepsLines(p, o);
    PositionByLines(p.text, o);
    PositionByLines(p.source, o);
  }

  /** The range lies in one literal, template and projection agree on every line of it, the returned start is the reported
      start, and the returned end is the reported end if that is a position of the projection, and otherwise the end of that
      same line. */
  ghost predicate SoundlyMapped(p: Projection, reported: Range, r: Range) {
    exists start: nat, end: nat ::
      Denotes(p.source, r.start, start) && Denotes(p.source, r.end, end) && InOneLiteral(p, start, end) &&
      |p.text| == |p.source| && SameLines(p, reported.start.line, reported.end.line) &&
      r.start == reported.start &&
      (if exists e: nat :: Denotes(p.text, reported.end, e) then r.end == reported.end
       else EndsLine(p.source, end) && r.end.line == reported.end.line && r.end.character <= reported.end.character)
  }

  /** Mapping soundness: whenever a diagnostic is mapped, it is mapped soundly. */
  lemma MappingSound(p: Projection, d: Diagnostic)
    requires Faithful(p) && Mapped(p, d).Some?
    ensures SoundlyMapped(p, d.range, Mapped(p, d).value.range)
  {
    var start: nat, end: nat :| Accepts(p, d.range, start, end);
    MappedIs(p, d, start, end);
    AcceptedLinesSame(p, d.range);
    AcceptedOffset(p, d.range, start, end);
    assert EndsLine(p.text, end) && end < |p.source| ==> FaithfulAt(p, end);
  }

  /** No synthetic span lies on the lines from one offset to another, nor ends there. */
  predicate CleanLines(p: Projection, start: nat, end: nat)
    requires start <= |p.text| && end <= |p.text|
  {
    forall s | s in p.synthetic && s.start <= |p.text| && s.end <= |p.text| ::
      LineOf(p.text, s.end) < LineOf(p.text, start) || LineOf(p.text, s.start) > LineOf(p.text, end)
  }

  lemma CleanIsUntouched(p: Projection, start: nat, end: nat, range: Range)
    requires Faithful(p) && start <= |p.text| && end <= |p.text| && CleanLines(p, start, end)
    requires range.start.line == LineOf(p.text, start) && range.end.line == LineOf(p.text, end)
    ensures !Touched(p, range)
  {
    forall k | 0 <= k < |p.synthetic| ensures !Touches(p, range, p.synthetic[k]) {
      assert p.synthetic[k] in p.synthetic;
      PositionByLines(p.text, p.synthetic[k].start);
      PositionByLines(p.text, p.synthetic[k].end);
    }
  }

  /** Nothing is withheld without need: of a safe projection, a diagnostic that a backend reports for part of a literal, on lines
      without synthetic bytes, comes back as it is. */
  lemma MappingComplete(p: Projection, k: nat, start: nat, end: nat, d: Diagnostic)
    requires Faithful(p) && p.safe && k < |p.literals| && p.literals[k].start <= start < end <= p.literals[k].end
    requires IsBoundary(p.text, start) && IsBoundary(p.text, end) && end <= |p.text| && CleanLines(p, start, end)
    requires d.range == Range(PositionAt(p.text, start), PositionAt(p.text, end))
    ensures Mapped(p, d) == Some(d)
  {
    PositionByLines(p.text, start);
    PositionByLines(p.text, end);
    CleanIsUntouched(p, start, end, d.range);
    assert Denotes(p.text, d.range.end, end);
    assert Accepts(p, d.range, start, end);
    AcceptedLinesSame(p, d.range);
    MappedIs(p, d, start, end);
    NewlinesAdd(p.text, 0, start, end);
    SamePosition(p, d.range.start.line, d.range.end.line, start);
    SamePosition(p, d.range.start.line, d.range.end.line, end);
  }

  /** The same for an end past its line, which is taken back to the end of the line. */
  lemma MappingClamps(p: Projection, k: nat, start: nat, end: nat, d: Diagnostic)
    requires Faithful(p) && p.safe && k < |p.literals| && p.literals[k].start <= start < end <= p.literals[k].end
    requires IsBoundary(p.text, start) && IsBoundary(p.text, end) && end <= |p.text| && CleanLines(p, start, end)
    requires EndsLine(p.text, end) && d.range.start == PositionAt(p.text, start)
    requires d.range.end.line == PositionAt(p.text, end).line && d.range.end.character > PositionAt(p.text, end).character
    ensures Mapped(p, d) == Some(d.(range := Range(d.range.start, PositionAt(p.text, end))))
  {
    PositionByLines(p.text, start);
    PositionByLines(p.text, end);
    CleanIsUntouched(p, start, end, d.range);
    forall e: nat ensures !Denotes(p.text, d.range.end, e) {
      NotPastLine(p.text, end, d.range.end, e);
    }
    assert Accepts(p, d.range, start, end);
    AcceptedLinesSame(p, d.range);
    MappedIs(p, d, start, end);
    NewlinesAdd(p.text, 0, start, end);
    SamePosition(p, d.range.start.line, d.range.end.line, start);
    SamePosition(p, d.range.start.line, d.range.end.line, end);
  }

  /** No place is further along a line than its end. */
  lemma NotPastLine(c: seq<byte>, end: nat, pos: Position, e: nat)
    requires end <= |c| && EndsLine(c, end) && IsBoundary(c, end)
    requires pos.line == PositionAt(c, end).line && pos.character > PositionAt(c, end).character
    ensures !Denotes(c, pos, e)
  {
    if Denotes(c, pos, e) {
      BoundaryInRange(c, 0, e);
      PositionByLines(c, e);
      PositionByLines(c, end);
      if e > end {
        NewlinesAdd(c, 0, end, e);
      } else if e < end {
        PositionsIncrease(c, e, end);
      }
    }
  }

  /** The template that the walk over a tree gives, as `TemplateRegions` returns it. */
  function TemplateOf(root: Tree, hasError: bool, source: seq<byte>, host: Host, blockScalar: bool, candidates: seq<nat>): Template {
    Template(source, host, Literals(root), hasError || Unstable(root), blockScalar, candidates)
  }

  /** From the syntax tree on: whatever well-formed tree the parser gives for a template, every diagnostic that comes back from
      its projection is mapped soundly or withheld, and none is mapped for a tree with an error or with control flow outside
      literal text. */
  lemma TreeMappingSound(root: Tree, hasError: bool, source: seq<byte>, host: Host, blockScalar: bool, candidates: seq<nat>,
                         d: Diagnostic)
    requires Nested(root) && root.end <= |source|
    ensures var t := TemplateOf(root, hasError, source, host, blockScalar, candidates);
            && ValidTemplate(t)
            && (Mapped(ProjectionOf(t), d).Some? ==>
                  && !hasError && !Unstable(root)
                  && SoundlyMapped(ProjectionOf(t), d.range, Mapped(ProjectionOf(t), d).value.range))
  {
    var t := TemplateOf(root, hasError, source, host, blockScalar, candidates);
    LiteralsSorted(root);
    SortedWidens(t.literals, 0, root.start, root.end, |t.source|);
    SafeExactly(t);
    ProjectionFaithful(t);
    if Mapped(ProjectionOf(t), d).Some? {
      MappingSound(ProjectionOf(t), d);
    }
  }

  lemma AcceptedOffset(p: Projection, range: Range, start: nat, end: nat)
    requires Faithful(p) && Accepts(p, range, start, end) && SameLines(p, range.start.line, range.end.line)
    ensures end <= |p.source| && IsBoundary(p.source, start) && IsBoundary(p.source, end)
    ensures PositionAt(p.source, start) == PositionAt(p.text, start)
    ensures PositionAt(p.source, end) == PositionAt(p.text, end)
  {
    var k :| 0 <= k < |p.literals| && p.literals[k].start <= start < end <= p.literals[k].end;
    SortedAt(p.literals, 0, |p.source|, k);
    var from, to := range.start.line, range.end.line;
    PositionByLines(p.text, start);
    PositionByLines(p.text, end);
    NewlinesAdd(p.text, 0, start, end);
    SamePosition(p, from, to, start);
    SamePosition(p, from, to, end);
    SameBoundary(p, from, to, start);
    SameBoundary(p, from, to, end);
  }

  /** A line feed ends whatever rune was begun before it, so a rune decodes alike in texts that agree up to one. */
  lemma DecodeToLineEnd(c: seq<byte>, d: seq<byte>, i: nat, e: nat)
    requires i < e <= |c| == |d| && EndsLine(c, e) && EndsLine(d, e)
    requires forall k | i <= k < e :: c[k] == d[k]
    ensures DecodeAt(c, i, |c|) == DecodeAt(d, i, |d|)
  {
  }

  lemma {:induction false} SameBoundaryFrom(c: seq<byte>, d: seq<byte>, i: nat, o: nat, e: nat)
    requires i <= o <= e <= |c| == |d| && EndsLine(c, e) && EndsLine(d, e)
    requires forall k | i <= k < e :: c[k] == d[k]
    requires BoundaryFrom(c, i, o)
    ensures BoundaryFrom(d, i, o)
    decreases |c| - i
  {
    if i < o {
      DecodeToLineEnd(c, d, i, e);
      BoundaryInRange(c, i + DecodeAt(c, i, |c|).width, o);
      SameBoundaryFrom(c, d, i + DecodeAt(c, i, |c|).width, o, e);
    }
  }

  /** A rune boundary of the projection on an untouched line is a rune boundary of the template. */
  lemma SameBoundary(p: Projection, from: nat, to: nat, o: nat)
    requires Faithful(p) && SameLines(p, from, to) && o <= |p.source| && from <= LineOf(p.text, o) <= to
    requires IsBoundary(p.text, o)
    ensures IsBoundary(p.source, o)
  {
    SameLine(p, from, to, o);
    var s, e := LineStart(p.source, o), LineEnd(p.source, o);
    if s > 0 {
      AsciiIsBoundary(p.source, 0, s);
      AsciiIsBoundary(p.text, 0, s);
    }
    BoundaryBetween(p.text, 0, s, o);
    SameBoundaryFrom(p.text, p.source, s, o, e);
    BoundaryChain(p.source, 0, s, o);
  }

  lemma {:induction false} BoundaryChain(c: seq<byte>, i: nat, mid: nat, o: nat)
    requires i <= mid <= |c| && BoundaryFrom(c, i, mid) && BoundaryFrom(c, mid, o)
    ensures BoundaryFrom(c, i, o)
    decreases |c| - i
  {
    BoundaryInRange(c, mid, o);
    if i < mid {
      BoundaryInRange(c, i + DecodeAt(c, i, |c|).width, mid);
      BoundaryChain(c, i + DecodeAt(c, i, |c|).width, mid, o);
    }
  }
}
