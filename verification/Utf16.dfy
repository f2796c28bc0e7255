/** Unicode text and its two encodings: what a decoded rune and a column stand for. */
module Utf16 {
  import opened Utf8
  import opened Positions

  /** A Unicode scalar value: any code point but the surrogates. */
  predicate IsScalar(v: nat) {
    v <= 0x10FFFF && !(0xD800 <= v <= 0xDFFF)
  }

  /** UTF-8, by the table in section 3 of RFC 3629. */
  function Encode(v: nat): seq<byte>
    requires IsScalar(v)
  {
    if v <= 0x7F then [v]
    else if v <= 0x7FF then [0xC0 + v / 0x40, 0x80 + v % 0x40]
    else if v <= 0xFFFF then [0xE0 + v / 0x1000, 0x80 + v / 0x40 % 0x40, 0x80 + v % 0x40]
    else [0xF0 + v / 0x40000, 0x80 + v / 0x1000 % 0x40, 0x80 + v / 0x40 % 0x40, 0x80 + v % 0x40]
  }

  /** The bytes `e` stand at `i`, before `hi`. */
  predicate StandsAt(e: seq<byte>, c: seq<byte>, i: nat, hi: nat)
    requires hi <= |c|
  {
    i + |e| <= hi && forall k: nat | k < |e| :: c[i+k] == e[k]
  }

  predicate EncodedAt(c: seq<byte>, i: nat, hi: nat, v: nat)
    requires hi <= |c|
  {
    IsScalar(v) && StandsAt(Encode(v), c, i, hi)
  }

  lemma ThreeBytes(v: nat)
    requires 0x800 <= v <= 0xFFFF
    ensures v == v / 0x1000 * 0x1000 + v / 0x40 % 0x40 * 0x40 + v % 0x40
  {
  }

  lemma FourBytes(v: nat)
    requires 0x10000 <= v <= 0x10FFFF
    ensures v == v / 0x40000 * 0x40000 + v / 0x1000 % 0x40 * 0x1000 + v / 0x40 % 0x40 * 0x40 + v % 0x40
  {
  }

  /** The decoder reads an encoded scalar value back, whatever follows. */
  lemma EncodedIsRead(c: seq<byte>, i: nat, hi: nat, v: nat)
    requires i < hi <= |c| && EncodedAt(c, i, hi, v)
    ensures DecodeAt(c, i, hi) == Rune(v, |Encode(v)|)
  {
    var e := Encode(v);
    assert c[i] == e[0];
    assert |e| > 1 ==> c[i+1] == e[1];
    assert |e| > 2 ==> c[i+2] == e[2];
    assert |e| > 3 ==> c[i+3] == e[3];
    if 0x800 <= v <= 0xFFFF {
      ThreeBytes(v);
    } else if v > 0xFFFF {
      FourBytes(v);
    }
  }

  lemma TwoRead(b0: byte, b1: byte)
    requires 0xC2 <= b0 <= 0xDF && Continuation(b1)
    ensures var v := (b0 - 0xC0) * 0x40 + (b1 - 0x80); IsScalar(v) && Encode(v) == [b0, b1]
  {
  }

  lemma ThreeRead(b0: byte, b1: byte, b2: byte)
    requires 0xE0 <= b0 <= 0xEF && SecondByte(b0, b1) && Continuation(b2)
    ensures var v := (b0 - 0xE0) * 0x1000 + (b1 - 0x80) * 0x40 + (b2 - 0x80); IsScalar(v) && Encode(v) == [b0, b1, b2]
  {
    var v := (b0 - 0xE0) * 0x1000 + (b1 - 0x80) * 0x40 + (b2 - 0x80);
    assert v / 0x40 == (b0 - 0xE0) * 0x40 + (b1 - 0x80);
  }

  lemma FourRead(b0: byte, b1: byte, b2: byte, b3: byte)
    requires 0xF0 <= b0 <= 0xF4 && SecondByte(b0, b1) && Continuation(b2) && Continuation(b3)
    ensures var v := (b0 - 0xF0) * 0x40000 + (b1 - 0x80) * 0x1000 + (b2 - 0x80) * 0x40 + (b3 - 0x80);
            IsScalar(v) && Encode(v) == [b0, b1, b2, b3]
  {
    var v := (b0 - 0xF0) * 0x40000 + (b1 - 0x80) * 0x1000 + (b2 - 0x80) * 0x40 + (b3 - 0x80);
    var w := (b0 - 0xF0) * 0x1000 + (b1 - 0x80) * 0x40 + (b2 - 0x80);
    Divided(w, b2, b3, b1, b0);
    assert v == w * 0x40 + (b3 - 0x80);
  }

  lemma Divided(w: int, b2: byte, b3: byte, b1: byte, b0: byte)
    requires 0x80 <= b1 < 0xC0 && 0x80 <= b2 < 0xC0 && 0x80 <= b3 < 0xC0 && b0 >= 0xF0
    requires w == (b0 - 0xF0) * 0x1000 + (b1 - 0x80) * 0x40 + (b2 - 0x80)
    ensures (w * 0x40 + (b3 - 0x80)) / 0x40 == w && (w * 0x40 + (b3 - 0x80)) / 0x1000 == w / 0x40
    ensures w / 0x40 == (b0 - 0xF0) * 0x40 + (b1 - 0x80)
  {
  }

  /** Anything that is not an encoded scalar value reads as one U+FFFD of width 1. */
  lemma OthersAreErrors(c: seq<byte>, i: nat, hi: nat)
    requires i < hi <= |c| && forall v :: !EncodedAt(c, i, hi, v)
    ensures DecodeAt(c, i, hi) == Rune(0xFFFD, 1)
  {
    var r := DecodeAt(c, i, hi);
    if r != Rune(0xFFFD, 1) {
      ReadIsEncoded(c, i, hi);
      assert EncodedAt(c, i, hi, r.value);
    }
  }

  lemma ReadIsEncoded(c: seq<byte>, i: nat, hi: nat)
    requires i < hi <= |c| && DecodeAt(c, i, hi) != Rune(0xFFFD, 1)
    ensures var r := DecodeAt(c, i, hi); IsScalar(r.value) && i + r.width <= hi && Encode(r.value) == c[i..i+r.width]
  {
    var r := DecodeAt(c, i, hi);
    if c[i] < 0x80 {
      assert Encode(c[i]) == [c[i]];
    } else if r.width == 2 {
      TwoRead(c[i], c[i+1]);
    } else if r.width == 3 {
      ThreeRead(c[i], c[i+1], c[i+2]);
    } else {
      FourRead(c[i], c[i+1], c[i+2], c[i+3]);
    }
  }

  // ----- UTF-16 -----

  predicate IsHigh(unit: nat) {
    0xD800 <= unit <= 0xDBFF
  }

  predicate IsLow(unit: nat) {
    0xDC00 <= unit <= 0xDFFF
  }

  /** The code units of a scalar value (section 2.1 of RFC 2781). */
  function CodeUnits(v: nat): seq<nat>
    requires IsScalar(v)
  {
    if v < 0x10000 then [v] else [0xD800 + (v - 0x10000) / 0x400, 0xDC00 + (v - 0x10000) % 0x400]
  }

  function AllCodeUnits(text: seq<nat>): seq<nat>
    requires forall v | v in text :: IsScalar(v)
  {
    if text == [] then [] else CodeUnits(text[0]) + AllCodeUnits(text[1..])
  }

  /** Reading code units back: a high surrogate and the low one after it make one scalar value. */
  function FromCodeUnits(units: seq<nat>): seq<nat>
    decreases |units|
  {
    if units == [] then []
    else if |units| > 1 && IsHigh(units[0]) && IsLow(units[1])
    then [0x10000 + (units[0] - 0xD800) * 0x400 + (units[1] - 0xDC00)] + FromCodeUnits(units[2..])
    else [units[0]] + FromCodeUnits(units[1..])
  }

  lemma {:induction false} CodeUnitsRoundTrip(text: seq<nat>)
    requires forall v | v in text :: IsScalar(v)
    ensures FromCodeUnits(AllCodeUnits(text)) == text
    decreases |text|
  {
    if text != [] {
      var v, rest := text[0], AllCodeUnits(text[1..]);
      CodeUnitsRoundTrip(text[1..]);
      var units := CodeUnits(v) + rest;
      if v < 0x10000 {
        assert units[1..] == rest;
      } else {
        assert units[2..] == rest;
      }
    }
  }

  function EncodeAll(text: seq<nat>): seq<byte>
    requires forall v | v in text :: IsScalar(v)
  {
    if text == [] then [] else Encode(text[0]) + EncodeAll(text[1..])
  }

  // ----- positions -----

  /** Line feeds in a text, and what follows the last one. */
  function LinesBefore(text: seq<nat>): nat {
    if text == [] then 0 else (if text[|text|-1] == 10 then 1 else 0) + LinesBefore(text[..|text|-1])
  }

  function LastLine(text: seq<nat>): (line: seq<nat>)
    ensures forall v | v in line :: v in text
  {
    if text == [] || text[|text|-1] == 10 then [] else LastLine(text[..|text|-1]) + [text[|text|-1]]
  }

  lemma {:induction false} AllCodeUnitsSnoc(text: seq<nat>, v: nat)
    requires (forall x | x in text :: IsScalar(x)) && IsScalar(v)
    ensures AllCodeUnits(text + [v]) == AllCodeUnits(text) + CodeUnits(v)
    decreases |text|
  {
    if text == [] {
      assert [v][1..] == [];
    } else {
      assert (text + [v])[1..] == text[1..] + [v];
      AllCodeUnitsSnoc(text[1..], v);
    }
  }

  lemma StandsSplit(e: seq<byte>, rest: seq<byte>, c: seq<byte>, i: nat, hi: nat)
    requires hi <= |c| && StandsAt(e + rest, c, i, hi)
    ensures StandsAt(e, c, i, hi) && StandsAt(rest, c, i + |e|, hi)
  {
    var all := e + rest;
    forall k: nat | k < |e| ensures c[i+k] == e[k] {
      assert all[k] == e[k];
    }
    forall k: nat | k < |rest| ensures c[i+|e|+k] == rest[k] {
      assert all[|e|+k] == rest[k];
    }
  }

  /** The first scalar value of encoded text is read, and the rest stands behind it. */
  lemma FirstIsRead(c: seq<byte>, i: nat, hi: nat, text: seq<nat>) returns (n: nat)
    requires (forall v | v in text :: IsScalar(v)) && text != [] && hi <= |c| && StandsAt(EncodeAll(text), c, i, hi)
    ensures 0 < n && i + n <= hi && DecodeAt(c, i, hi) == Rune(text[0], n)
    ensures StandsAt(EncodeAll(text[1..]), c, i + n, hi) && |EncodeAll(text)| == n + |EncodeAll(text[1..])|
  {
    n := |Encode(text[0])|;
    StandsSplit(Encode(text[0]), EncodeAll(text[1..]), c, i, hi);
    EncodedIsRead(c, i, hi, text[0]);
  }

  /** Scanning over encoded text advances by its scalar values. */
  lemma {:induction false} ScanOver(c: seq<byte>, i: nat, hi: nat, text: seq<nat>, p: Position)
    requires forall v | v in text :: IsScalar(v)
    requires i <= hi <= |c| && StandsAt(EncodeAll(text), c, i, hi) && i + |EncodeAll(text)| == hi
    ensures Scan(c, i, hi, p) == AdvanceAll(p, text)
    decreases |text|
  {
    if text != [] {
      var n := FirstIsRead(c, i, hi, text);
      ScanOver(c, i + n, hi, text[1..], Advance(p, text[0]));
    }
  }

  function AdvanceAll(p: Position, text: seq<nat>): Position
    decreases |text|
  {
    if text == [] then p else AdvanceAll(Advance(p, text[0]), text[1..])
  }

  lemma {:induction false} AdvanceSnoc(p: Position, text: seq<nat>, v: nat)
    ensures AdvanceAll(p, text + [v]) == Advance(AdvanceAll(p, text), v)
    decreases |text|
  {
    if text == [] {
      assert [v][1..] == [];
    } else {
      assert (text + [v])[1..] == text[1..] + [v];
      AdvanceSnoc(Advance(p, text[0]), text[1..], v);
    }
  }

  lemma {:induction false} AdvancedByLines(text: seq<nat>)
    requires forall v | v in text :: IsScalar(v)
    ensures AdvanceAll(Position(0, 0), text) == Position(LinesBefore(text), |AllCodeUnits(LastLine(text))|)
    decreases |text|
  {
    if text != [] {
      var init, v := text[..|text|-1], text[|text|-1];
      assert text == init + [v];
      AdvancedByLines(init);
      AdvanceSnoc(Position(0, 0), init, v);
      if v != 10 {
        AllCodeUnitsSnoc(LastLine(init), v);
      }
    }
  }

  /** The position behind any Unicode text, stored as UTF-8 and followed by anything, is the number of its line feeds and the
      number of code units of the UTF-16 text of its last line. */
  lemma ColumnsAreUtf16(text: seq<nat>, rest: seq<byte>)
    requires forall v | v in text :: IsScalar(v)
    ensures PositionAt(EncodeAll(text) + rest, |EncodeAll(text)|) == Position(LinesBefore(text), |AllCodeUnits(LastLine(text))|)
  {
    var c := EncodeAll(text) + rest;
    ScanOver(c, 0, |EncodeAll(text)|, text, Position(0, 0));
    AdvancedByLines(text);
  }

  /** And so `byteOffset`, given that position, finds that place. */
  lemma ColumnsAreFound(text: seq<nat>, rest: seq<byte>)
    requires forall v | v in text :: IsScalar(v)
    ensures Denotes(EncodeAll(text) + rest, Position(LinesBefore(text), |AllCodeUnits(LastLine(text))|), |EncodeAll(text)|)
  {
    BoundaryOver(EncodeAll(text) + rest, 0, text);
    ColumnsAreUtf16(text, rest);
  }

  lemma {:induction false} BoundaryOver(c: seq<byte>, i: nat, text: seq<nat>)
    requires (forall v | v in text :: IsScalar(v)) && i <= |c| && StandsAt(EncodeAll(text), c, i, |c|)
    ensures BoundaryFrom(c, i, i + |EncodeAll(text)|)
    decreases |text|
  {
    if text != [] {
      var n := FirstIsRead(c, i, |c|, text);
      BoundaryOver(c, i + n, text[1..]);
    }
  }

  /** Of one line, the column is the length of its UTF-16 text. */
  lemma ColumnOfLine(line: seq<nat>, rest: seq<byte>)
    requires (forall v | v in line :: IsScalar(v)) && 10 !in line
    ensures PositionAt(EncodeAll(line) + rest, |EncodeAll(line)|) == Position(0, |AllCodeUnits(line)|)
  {
    ColumnsAreUtf16(line, rest);
    OneLine(line);
  }

  lemma {:induction false} OneLine(line: seq<nat>)
    requires 10 !in line
    ensures LinesBefore(line) == 0 && LastLine(line) == line
    decreases |line|
  {
    if line != [] {
      OneLine(line[..|line|-1]);
      assert line[..|line|-1] + [line[|line|-1]] == line;
    }
  }
}
