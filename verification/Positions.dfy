/** Byte offsets and the (line, UTF-16 column) positions of the Language Server Protocol 3.17, section "Position". */
module Positions {
  import opened Utf8

  datatype Position = Position(line: nat, character: nat)

  predicate Before(p: Position, q: Position) {
    p.line < q.line || (p.line == q.line && p.character < q.character)
  }

  /** UTF-16 code units of a rune. */
  function Units(rune: nat): nat {
    if rune > 0xFFFF then 2 else 1
  }

  function Advance(p: Position, rune: nat): Position {
    if rune == LF then Position(p.line + 1, 0) else Position(p.line, p.character + Units(rune))
  }

  /** The position reached from `p` by reading `c[i..hi]` rune by rune. */
  function Scan(c: seq<byte>, i: nat, hi: nat, p: Position): Position
    requires i <= hi <= |c|
    decreases hi - i
  {
    if i == hi then p
    else var r := DecodeAt(c, i, hi); Scan(c, i + r.width, hi, Advance(p, r.value))
  }

  function Clip(c: seq<byte>, offset: nat): (o: nat)
    ensures o <= |c|
  {
    if offset > |c| then |c| else offset
  }

  function PositionAt(c: seq<byte>, offset: nat): Position {
    Scan(c, 0, Clip(c, offset), Position(0, 0))
  }

  // ----- the same position, counted from line feeds -----

  function Newlines(c: seq<byte>, lo: nat, hi: nat): nat
    requires lo <= hi <= |c|
    decreases hi - lo
  {
    if lo == hi then 0 else (if c[lo] == LF then 1 else 0) + Newlines(c, lo + 1, hi)
  }

  function LineStart(c: seq<byte>, o: nat): (s: nat)
    requires o <= |c|
    ensures s <= o
    ensures s == 0 || c[s-1] == LF
    ensures forall k | s <= k < o :: c[k] != LF
  {
    if o == 0 || c[o-1] == LF then o else LineStart(c, o - 1)
  }

  /** UTF-16 width of `c[lo..hi]`. */
  function Width(c: seq<byte>, lo: nat, hi: nat): nat
    requires lo <= hi <= |c|
    decreases hi - lo
  {
    if lo == hi then 0
    else var r := DecodeAt(c, lo, hi); Units(r.value) + Width(c, lo + r.width, hi)
  }

  lemma {:induction false} NewlinesAdd(c: seq<byte>, a: nat, b: nat, d: nat)
    requires a <= b <= d <= |c|
    ensures Newlines(c, a, d) == Newlines(c, a, b) + Newlines(c, b, d)
    decreases b - a
  {
    if a < b {
      NewlinesAdd(c, a + 1, b, d);
    }
  }

  lemma {:induction false} NoNewlines(c: seq<byte>, lo: nat, hi: nat)
    requires lo <= hi <= |c|
    requires forall k | lo <= k < hi :: c[k] != LF
    ensures Newlines(c, lo, hi) == 0
    decreases hi - lo
  {
    if lo < hi {
      NoNewlines(c, lo + 1, hi);
    }
  }

  lemma {:induction false} LineStartUnique(c: seq<byte>, o: nat, s: nat)
    requires s <= o <= |c|
    requires s == 0 || c[s-1] == LF
    requires forall k | s <= k < o :: c[k] != LF
    ensures LineStart(c, o) == s
  {
    if s < o {
      LineStartUnique(c, o - 1, s);
    }
  }

  /** Every line feed resynchronises the decoder: scanning a text with line feeds in it ends on the column that scanning
      its last line alone gives. */
  lemma {:induction false} ScanByLines(c: seq<byte>, i: nat, hi: nat, p: Position)
    requires i <= hi <= |c|
    ensures Newlines(c, i, hi) == 0 ==> Scan(c, i, hi, p) == Position(p.line, p.character + Width(c, i, hi))
    ensures Newlines(c, i, hi) > 0 ==>
      LineStart(c, hi) > i && Scan(c, i, hi, p) == Position(p.line + Newlines(c, i, hi), Width(c, LineStart(c, hi), hi))
    decreases hi - i
  {
    if i < hi {
      var r := DecodeAt(c, i, hi);
      var n := i + r.width;
      ScanByLines(c, n, hi, Advance(p, r.value));
      NewlinesAdd(c, i, n, hi);
      if c[i] == LF {
        assert Newlines(c, i, n) == 1 + Newlines(c, n, n);
        if Newlines(c, n, hi) == 0 {
          HasNoNewlines(c, n, hi);
          LineStartUnique(c, hi, n);
        }
      } else {
        assert r.value != LF;
        NoNewlines(c, i, n);
      }
    }
  }

  lemma {:induction false} HasNoNewlines(c: seq<byte>, lo: nat, hi: nat)
    requires lo <= hi <= |c| && Newlines(c, lo, hi) == 0
    ensures forall k | lo <= k < hi :: c[k] != LF
    decreases hi - lo
  {
    if lo < hi {
      HasNoNewlines(c, lo + 1, hi);
    }
  }

  /** The position of an offset is the number of line feeds before it and the UTF-16 width of its line up to it, for
      every byte string and every offset, valid UTF-8 or not, rune boundary or not. */
  lemma PositionByLines(c: seq<byte>, o: nat)
    requires o <= |c|
    ensures PositionAt(c, o) == Position(Newlines(c, 0, o), Width(c, LineStart(c, o), o))
  {
    ScanByLines(c, 0, o, Position(0, 0));
    if Newlines(c, 0, o) == 0 {
      HasNoNewlines(c, 0, o);
      LineStartUnique(c, o, 0);
    }
  }

  // ----- positions of rune boundaries -----

  lemma {:induction false} ScanThrough(c: seq<byte>, i: nat, mid: nat, hi: nat, p: Position)
    requires i <= mid <= hi <= |c| && BoundaryFrom(c, i, mid)
    ensures Scan(c, i, hi, p) == Scan(c, mid, hi, Scan(c, i, mid, p))
    decreases |c| - i
  {
    if i < mid {
      var r := DecodeAt(c, i, |c|);
      BoundaryInRange(c, i + r.width, mid);
      DecodeIsLocal(c, i, |c|, mid);
      DecodeIsLocal(c, i, |c|, hi);
      ScanThrough(c, i + r.width, mid, hi, Advance(p, r.value));
    }
  }

  /** Reading one more rune advances the position by that rune. */
  lemma PositionStep(c: seq<byte>, o: nat)
    requires IsBoundary(c, o) && o < |c|
    ensures var r := DecodeAt(c, o, |c|);
            IsBoundary(c, o + r.width) && PositionAt(c, o + r.width) == Advance(PositionAt(c, o), r.value)
  {
    var r := DecodeAt(c, o, |c|);
    BoundaryInRange(c, 0, o);
    BoundaryExtends(c, 0, o);
    ScanThrough(c, 0, o, o + r.width, Position(0, 0));
    DecodeIsLocal(c, o, |c|, o + r.width);
  }

  /** Positions are strictly increasing, in lexicographic order, along rune boundaries. */
  lemma {:induction false} PositionsIncrease(c: seq<byte>, a: nat, b: nat)
    requires IsBoundary(c, a) && IsBoundary(c, b) && a < b
    ensures Before(PositionAt(c, a), PositionAt(c, b))
    decreases b - a
  {
    BoundaryInRange(c, 0, a);
    BoundaryInRange(c, 0, b);
    BoundaryBetween(c, 0, a, b);
    var n := a + DecodeAt(c, a, |c|).width;
    PositionStep(c, a);
    BoundaryInRange(c, n, b);
    if n < b {
      PositionsIncrease(c, n, b);
    }
  }

  /** The offset that a position denotes, if any. */
  ghost predicate Denotes(c: seq<byte>, pos: Position, o: nat) {
    IsBoundary(c, o) && PositionAt(c, o) == pos
  }

  lemma DenotesUnique(c: seq<byte>, pos: Position, a: nat, b: nat)
    requires Denotes(c, pos, a) && Denotes(c, pos, b)
    ensures a == b
  {
    if a < b { PositionsIncrease(c, a, b); }
    if b < a { PositionsIncrease(c, b, a); }
  }

  lemma {:induction false} ScanBound(c: seq<byte>, i: nat, hi: nat, p: Position)
    requires i <= hi <= |c|
    ensures var q := Scan(c, i, hi, p);
            p.line <= q.line && q.line + q.character <= p.line + p.character + (hi - i)
    decreases hi - i
  {
    if i < hi {
      var r := DecodeAt(c, i, hi);
      ScanBound(c, i + r.width, hi, Advance(p, r.value));
    }
  }

  /** On texts shorter than 2^32 bytes the 32-bit counters of the original never wrap: no line number and no column
      exceeds the number of bytes read. */
  lemma FitsUint32(c: seq<byte>, o: nat)
    requires |c| < 0x1_0000_0000
    ensures PositionAt(c, o).line < 0x1_0000_0000 && PositionAt(c, o).character < 0x1_0000_0000
  {
    ScanBound(c, 0, Clip(c, o), Position(0, 0));
  }

  // ----- the loops of the original -----

  method PositionOf(content: seq<byte>, offset: nat) returns (p: Position)
    ensures p == PositionAt(content, offset)
  {
    var stop := offset;
    if stop > |content| {
      stop := |content|;
    }
    p := Position(0, 0);
    var i := 0;
    while i < stop
      invariant i <= stop
      invariant Scan(content, i, stop, p) == PositionAt(content, offset)
    {
      var r := DecodeAt(content, i, stop);
      if r.value == LF {
        p := Position(p.line + 1, 0);
      } else {
        p := p.(character := p.character + Units(r.value));
      }
      i := i + r.width;
    }
  }

  /** Finds the rune boundary at a position. Columns are counted only once the wanted line is reached, and the loop gives
      up as soon as it is past the wanted position, so a column inside a surrogate pair is refused. */
  method ByteOffset(content: seq<byte>, pos: Position) returns (o: nat, ok: bool)
    ensures ok ==> Denotes(content, pos, o)
    ensures !ok ==> forall b: nat :: !Denotes(content, pos, b)
  {
    var line, col := 0, 0;
    var i := 0;
    while i < |content|
      invariant IsBoundary(content, i) && i <= |content|
      invariant PositionAt(content, i).line == line
      invariant line <= pos.line
      invariant line < pos.line ==> col == 0
      invariant line == pos.line ==> col == PositionAt(content, i).character && col <= pos.character
    {
      if line == pos.line && col == pos.character {
        return i, true;
      }
      var r := DecodeAt(content, i, |content|);
      PositionStep(content, i);
      ghost var here, next := i, i + r.width;
      if r.value == LF {
        line := line + 1;
        col := 0;
      } else if line == pos.line {
        col := col + Units(r.value);
      }
      if line > pos.line || (line == pos.line && col > pos.character) {
        forall b: nat ensures !Denotes(content, pos, b) {
          SkippedOver(content, pos, here, next, b);
        }
        return 0, false;
      }
      i := i + r.width;
    }
    o, ok := |content|, line == pos.line && col == pos.character;
    if !ok {
      forall b: nat ensures !Denotes(content, pos, b) {
        BeyondEnd(content, pos, b);
      }
    }
  }

  lemma SkippedOver(c: seq<byte>, pos: Position, here: nat, next: nat, b: nat)
    requires IsBoundary(c, here) && here < |c| && next == here + DecodeAt(c, here, |c|).width && IsBoundary(c, next)
    requires Before(PositionAt(c, here), pos) && Before(pos, PositionAt(c, next))
    ensures !Denotes(c, pos, b)
  {
    if Denotes(c, pos, b) {
      if b < here {
        PositionsIncrease(c, b, here);
      } else if here < b {
        BoundaryBetween(c, 0, here, b);
        BoundaryInRange(c, next, b);
        if next < b {
          PositionsIncrease(c, next, b);
        }
      }
    }
  }

  lemma BeyondEnd(c: seq<byte>, pos: Position, b: nat)
    requires IsBoundary(c, |c|) && Before(PositionAt(c, |c|), pos)
    ensures !Denotes(c, pos, b)
  {
    if Denotes(c, pos, b) {
      BoundaryInRange(c, 0, b);
      if b < |c| {
        PositionsIncrease(c, b, |c|);
      }
    }
  }

  /** Where a line ends: just before its line feed, or at the end of the text. */
  predicate EndsLine(c: seq<byte>, o: nat) {
    o <= |c| && (o == |c| || c[o] == LF)
  }

  function LineEnd(c: seq<byte>, o: nat): (e: nat)
    requires o <= |c|
    ensures o <= e && EndsLine(c, e)
    ensures forall k | o <= k < e :: c[k] != LF
    decreases |c| - o
  {
    if EndsLine(c, o) then o else LineEnd(c, o + 1)
  }

  method NextNewline(text: seq<byte>, start: nat) returns (o: nat)
    requires start <= |text|
    ensures o == LineEnd(text, start) && start <= o <= |text|
  {
    o := start;
    while o < |text| && text[o] != LF
      invariant start <= o <= |text|
      invariant LineEnd(text, o) == LineEnd(text, start)
    {
      o := o + 1;
    }
  }

  lemma LineOfLaterOffset(c: seq<byte>, start: nat, last: nat, o: nat)
    requires start <= last <= |c| && EndsLine(c, last) && EndsLine(c, o)
    requires start == 0 || c[start-1] == LF
    requires forall k | start <= k < last :: c[k] != LF
    ensures o < start ==> Newlines(c, 0, o) < Newlines(c, 0, start)
    ensures start <= o ==> last <= o
    ensures last < o ==> Newlines(c, 0, o) > Newlines(c, 0, start)
    ensures Newlines(c, 0, last) == Newlines(c, 0, start)
  {
    NewlinesAdd(c, 0, start, last);
    NoNewlines(c, start, last);
    if o < start {
      NewlinesAdd(c, 0, o, start);
    } else {
      NewlinesAdd(c, 0, last, o);
    }
  }

  /** Clamps a position past the end of its line to that end. It succeeds exactly when the line exists and the column is
      at or past its UTF-16 width. */
  method ClampEndOfLine(text: seq<byte>, pos: Position) returns (o: nat, ok: bool)
    ensures ok ==> EndsLine(text, o) && IsBoundary(text, o) &&
                   PositionAt(text, o).line == pos.line && PositionAt(text, o).character <= pos.character
    ensures !ok ==> forall e: nat | EndsLine(text, e) && PositionAt(text, e).line == pos.line ::
                      PositionAt(text, e).character > pos.character
  {
    var start: nat := 0;
    var line: nat := 0;
    while line <= pos.line
      invariant line <= pos.line && start <= |text|
      invariant start == 0 || text[start-1] == LF
      invariant Newlines(text, 0, start) == line
      decreases pos.line - line
    {
      var last := NextNewline(text, start);
      if line == pos.line {
        var width := PositionOf(text[start..last], last - start);
        OnlyEndOfLine(text, start, last);
        if pos.character >= width.character {
          AsciiIsBoundary(text, 0, last);
          return last, true;
        }
        return 0, false;
      }
      LineOfLaterOffset(text, start, last, last);
      if last >= |text| {
        break;
      }
      NewlinesAdd(text, 0, last, last + 1);
      start := last + 1;
      line := line + 1;
    }
    NoLineBeyond(text);
    return 0, false;
  }

  lemma OnlyEndOfLine(c: seq<byte>, start: nat, last: nat)
    requires start <= |c| && (start == 0 || c[start-1] == LF) && last == LineEnd(c, start)
    ensures PositionAt(c, last) == Position(Newlines(c, 0, start), PositionAt(c[start..last], last - start).character)
    ensures forall e: nat | EndsLine(c, e) && PositionAt(c, e).line == Newlines(c, 0, start) :: e == last
  {
    LineStartUnique(c, last, start);
    PositionByLines(c, last);
    LineOfLaterOffset(c, start, last, last);
    SliceWidth(c, start, last);
    PositionByLines(c[start..last], last - start);
    forall e: nat | EndsLine(c, e) && PositionAt(c, e).line == Newlines(c, 0, start) ensures e == last {
      PositionByLines(c, e);
      LineOfLaterOffset(c, start, last, e);
    }
  }

  lemma NoLineBeyond(c: seq<byte>)
    ensures forall e: nat | EndsLine(c, e) :: PositionAt(c, e).line <= Newlines(c, 0, |c|)
  {
    forall e: nat | EndsLine(c, e) ensures PositionAt(c, e).line <= Newlines(c, 0, |c|) {
      PositionByLines(c, e);
      NewlinesAdd(c, 0, e, |c|);
    }
  }

  /** A line cut out of its text has the width it had in place. */
  lemma SliceWidth(c: seq<byte>, start: nat, last: nat)
    requires start <= last <= |c|
    requires forall k | start <= k < last :: c[k] != LF
    ensures var line := c[start..last];
            LineStart(line, |line|) == 0 && Width(line, 0, |line|) == Width(c, start, last)
  {
    var line := c[start..last];
    LineStartUnique(line, |line|, 0);
    SameWidth(line, 0, c, start, |line|);
  }

  /** Width depends only on the bytes measured. */
  lemma {:induction false} SameWidth(c: seq<byte>, i: nat, d: seq<byte>, j: nat, n: nat)
    requires i + n <= |c| && j + n <= |d| && c[i..i+n] == d[j..j+n]
    ensures Width(c, i, i + n) == Width(d, j, j + n)
    decreases n
  {
    if n > 0 {
      DecodeReadsOnly(c, i, d, j, n);
      var w := DecodeAt(c, i, i + n).width;
      assert c[i+w..i+n] == c[i..i+n][w..] == d[j..j+n][w..] == d[j+w..j+n];
      SameWidth(c, i + w, d, j + w, n - w);
    }
  }

  // ----- what the three say together -----

  /** `byteOffset` undoes `position` on every rune boundary. */
  method OffsetRoundTrip(c: seq<byte>, o: nat) returns (back: nat, ok: bool)
    requires IsBoundary(c, o)
    ensures ok && back == o
  {
    var p := PositionOf(c, o);
    back, ok := ByteOffset(c, p);
    assert Denotes(c, p, o);
    DenotesUnique(c, p, o, back);
  }

  /** A column in the middle of a surrogate pair denotes no offset. */
  lemma InsideSurrogatePair(c: seq<byte>, o: nat, b: nat)
    requires IsBoundary(c, o) && o < |c| && DecodeAt(c, o, |c|).value > 0xFFFF
    ensures var p := PositionAt(c, o); !Denotes(c, p.(character := p.character + 1), b)
  {
    var p := PositionAt(c, o);
    PositionStep(c, o);
    SkippedOver(c, p.(character := p.character + 1), o, o + DecodeAt(c, o, |c|).width, b);
  }

  /** Where both lookups succeed they agree, so falling back from one to the other is the clamping of section "Position". */
  lemma ClampAgrees(c: seq<byte>, pos: Position, exact: nat, clamped: nat)
    requires Denotes(c, pos, exact)
    requires EndsLine(c, clamped) && IsBoundary(c, clamped)
    requires PositionAt(c, clamped).line == pos.line && PositionAt(c, clamped).character <= pos.character
    ensures exact == clamped
  {
    BoundaryInRange(c, 0, exact);
    if clamped < exact {
      PositionsIncrease(c, clamped, exact);
      PositionByLines(c, clamped);
      PositionByLines(c, exact);
      NewlinesAdd(c, 0, clamped, exact);
    } else if exact < clamped {
      PositionsIncrease(c, exact, clamped);
    }
  }
}
