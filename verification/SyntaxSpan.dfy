/** The span that is reported for a template that does not parse: the action at the line the parser names. */
module SyntaxSpans {
  import opened Options
  import opened Utf8
  import opened Positions
  import opened Projections

  const CLOSE: seq<byte> := [125, 125, 125]                 // }}}

  predicate IsLineStart(c: seq<byte>, o: nat) {
    o <= |c| && (o == 0 || c[o-1] == LF)
  }

  /** The start of a line, counted from one, or of the last line when there are fewer. */
  method StartOfLine(c: seq<byte>, line: int) returns (start: nat)
    ensures IsLineStart(c, start)
    ensures Newlines(c, 0, start) == if line <= 1 then 0 else if line - 1 <= Newlines(c, 0, |c|) then line - 1 else Newlines(c, 0, |c|)
  {
    start := 0;
    var i := 1;
    while i < line
      invariant IsLineStart(c, start) && Newlines(c, 0, start) == i - 1
      invariant i == 1 || i <= line
    {
      var next := NextNewline(c, start);
      NewlinesAdd(c, 0, start, |c|);
      NewlinesAdd(c, start, next, |c|);
      NoNewlines(c, start, next);
      if next == |c| {
        return;
      }
      NewlinesAdd(c, 0, start, next);
      NewlinesAdd(c, 0, next, next + 1);
      assert Newlines(c, next, next + 1) == 1 + Newlines(c, next + 1, next + 1);
      start := next + 1;
      i := i + 1;
    }
    NewlinesAdd(c, 0, start, |c|);
  }

  /** The first occurrence that begins at or after `from` and ends by `to`. */
  predicate FirstWithin(c: seq<byte>, pattern: seq<byte>, from: nat, to: nat, k: Option<nat>) {
    match k
    case Some(at) =>
      from <= at && at + |pattern| <= to && OccursAt(c, pattern, at) && forall j: nat | from <= j < at :: !OccursAt(c, pattern, j)
    case None => forall j: nat | from <= j && j + |pattern| <= to :: !OccursAt(c, pattern, j)
  }

  predicate LastWithin(c: seq<byte>, pattern: seq<byte>, to: nat, k: Option<nat>) {
    match k
    case Some(at) =>
      at + |pattern| <= to && OccursAt(c, pattern, at) && forall j: nat | at < j && j + |pattern| <= to :: !OccursAt(c, pattern, j)
    case None => forall j: nat | j + |pattern| <= to :: !OccursAt(c, pattern, j)
  }

  method Index(c: seq<byte>, pattern: seq<byte>, from: nat, to: nat) returns (k: Option<nat>)
    requires from <= to <= |c|
    ensures FirstWithin(c, pattern, from, to, k)
  {
    var i := from;
    while i + |pattern| <= to
      invariant from <= i
      invariant forall j: nat | from <= j < i :: !OccursAt(c, pattern, j)
    {
      if OccursAt(c, pattern, i) {
        return Some(i);
      }
      i := i + 1;
    }
    k := None;
  }

  method LastIndex(c: seq<byte>, pattern: seq<byte>, to: nat) returns (k: Option<nat>)
    requires to <= |c| && pattern != []
    ensures LastWithin(c, pattern, to, k)
  {
    var i := to;
    while i > 0
      invariant i <= to
      invariant forall j: nat | i <= j && j + |pattern| <= to :: !OccursAt(c, pattern, j)
    {
      i := i - 1;
      if i + |pattern| <= to && OccursAt(c, pattern, i) {
        return Some(i);
      }
    }
    k := None;
  }

  /** An action opened at `k` that nothing closes before `line`. */
  predicate OpenUntil(c: seq<byte>, k: nat, line: nat) {
    k + |OPEN| <= line <= |c| && OccursAt(c, OPEN, k) &&
    forall j: nat | k + |OPEN| <= j && j + |CLOSE| <= line :: !OccursAt(c, CLOSE, j)
  }

  /** The action to blame for an error on the line that starts at `line`: the last one opened before it, if that one is still
      open there or no action follows, or else the first one that follows; without any action, the line itself. */
  ghost predicate Blamed(c: seq<byte>, line: nat, start: nat)
    requires line <= |c|
  {
    || (LastWithin(c, OPEN, line, Some(start)) && (OpenUntil(c, start, line) || FirstWithin(c, OPEN, line, |c|, None)))
    || (FirstWithin(c, OPEN, line, |c|, Some(start)) && forall k: nat | LastWithin(c, OPEN, line, Some(k)) :: !OpenUntil(c, k, line))
    || (start == line && FirstWithin(c, OPEN, line, |c|, None) && LastWithin(c, OPEN, line, None))
  }

  /** The span ends behind the first closing braces, or else with its first line. */
  predicate EndsSpan(c: seq<byte>, start: nat, end: nat)
    requires start <= |c|
  {
    || (end >= start + |CLOSE| && FirstWithin(c, CLOSE, start, |c|, Some(end - |CLOSE|)))
    || (FirstWithin(c, CLOSE, start, |c|, None) && end == LineEnd(c, start))
  }

  method SyntaxSpan(c: seq<byte>, line: int) returns (start: nat, end: nat, startLine: nat)
    ensures IsLineStart(c, startLine)
    ensures Newlines(c, 0, startLine) ==
            if line <= 1 then 0 else if line - 1 <= Newlines(c, 0, |c|) then line - 1 else Newlines(c, 0, |c|)
    ensures start <= end <= |c| && Blamed(c, startLine, start) && EndsSpan(c, start, end)
  {
    startLine := StartOfLine(c, line);
    var before := LastIndex(c, OPEN, startLine);
    var here := Index(c, OPEN, startLine, |c|);
    var closed: Option<nat> := None;
    if before.Some? {
      closed := Index(c, CLOSE, before.value + |OPEN|, startLine);
    }
    if here.Some? && (before.None? || closed.Some?) {
      start := here.value;
    } else if before.Some? {
      start := before.value;
    } else {
      start := startLine;
    }
    var close := Index(c, CLOSE, start, |c|);
    if close.Some? {
      end := close.value + |CLOSE|;
    } else {
      end := NextNewline(c, start);
    }
  }

  /** The reported range denotes exactly the span: both of its ends are rune boundaries, read back from their positions. */
  lemma SpanIsRange(c: seq<byte>, line: nat, start: nat, end: nat)
    requires IsLineStart(c, line) && start <= end <= |c| && Blamed(c, line, start) && EndsSpan(c, start, end)
    ensures Denotes(c, PositionAt(c, start), start) && Denotes(c, PositionAt(c, end), end)
    ensures start < end ==> Before(PositionAt(c, start), PositionAt(c, end))
  {
    if OccursAt(c, OPEN, start) {
      assert c[start..start+|OPEN|][0] == c[start];
    }
    if start > 0 {
      AsciiIsBoundary(c, 0, start);
    }
    if end >= |CLOSE| && OccursAt(c, CLOSE, end - |CLOSE|) {
      assert c[end-|CLOSE|..end][|CLOSE|-1] == c[end-1];
    }
    if end > 0 {
      AsciiIsBoundary(c, 0, end);
    }
    if start < end {
      PositionsIncrease(c, start, end);
    }
  }
}
