/** Byte strings and the UTF-8 decoder Go's `range` loop applies to them (section 3 of RFC 3629).
    An invalid or truncated sequence yields one U+FFFD of width 1. */
module Utf8 {

  type byte = b: int | 0 <= b < 256

  const LF: byte := 10
  const RUNE_ERROR: nat := 0xFFFD

  datatype Rune = Rune(value: nat, width: nat)

  predicate Continuation(b: byte) {
    0x80 <= b <= 0xBF
  }

  /** The bytes that may follow a lead byte: the range differs after E0, ED, F0 and F4. */
  predicate SecondByte(lead: byte, b: byte) {
    if lead == 0xE0 then 0xA0 <= b <= 0xBF
    else if lead == 0xED then 0x80 <= b <= 0x9F
    else if lead == 0xF0 then 0x90 <= b <= 0xBF
    else if lead == 0xF4 then 0x80 <= b <= 0x8F
    else Continuation(b)
  }

  /** The payload bits of a byte, given its marker bits. */
  function Low(b: byte, marker: byte): nat
    requires marker <= b
  {
    b - marker
  }

  /** Decodes the rune that starts at `i` in `c[..hi]`. */
  function DecodeAt(c: seq<byte>, i: nat, hi: nat): (r: Rune)
    requires i < hi <= |c|
    ensures 1 <= r.width <= hi - i
    ensures c[i] < 0x80 ==> r == Rune(c[i], 1)
    ensures forall k | i <= k < i + r.width :: r.width > 1 ==> c[k] >= 0x80
    ensures c[i] >= 0x80 ==> r.value >= 0x80
  {
    var b := c[i];
    if b < 0x80 then
      Rune(b, 1)
    else if 0xC2 <= b <= 0xDF && i + 1 < hi && Continuation(c[i+1]) then
      Rune(Low(b, 0xC0) * 0x40 + Low(c[i+1], 0x80), 2)
    else if 0xE0 <= b <= 0xEF && i + 2 < hi && SecondByte(b, c[i+1]) && Continuation(c[i+2]) then
      Rune(Low(b, 0xE0) * 0x1000 + Low(c[i+1], 0x80) * 0x40 + Low(c[i+2], 0x80), 3)
    else if 0xF0 <= b <= 0xF4 && i + 3 < hi && SecondByte(b, c[i+1]) && Continuation(c[i+2]) && Continuation(c[i+3]) then
      Rune(Low(b, 0xF0) * 0x40000 + Low(c[i+1], 0x80) * 0x1000 + Low(c[i+2], 0x80) * 0x40 + Low(c[i+3], 0x80), 4)
    else
      Rune(RUNE_ERROR, 1)
  }

  /** Cutting the text anywhere at or after the end of a rune does not change how that rune decodes. */
  lemma DecodeIsLocal(c: seq<byte>, i: nat, hi: nat, cut: nat)
    requires i < cut <= hi <= |c|
    requires i + DecodeAt(c, i, hi).width <= cut
    ensures DecodeAt(c, i, cut) == DecodeAt(c, i, hi)
  {
  }

  /** Decoding reads only the bytes between its two bounds, wherever they stand. */
  lemma DecodeReadsOnly(c: seq<byte>, i: nat, d: seq<byte>, j: nat, n: nat)
    requires 0 < n && i + n <= |c| && j + n <= |d| && c[i..i+n] == d[j..j+n]
    ensures DecodeAt(c, i, i + n) == DecodeAt(d, j, j + n)
  {
    var s := c[i..i+n];
    assert c[i] == s[0] == d[j];
    assert n > 1 ==> c[i+1] == s[1] == d[j+1];
    assert n > 2 ==> c[i+2] == s[2] == d[j+2];
    assert n > 3 ==> c[i+3] == s[3] == d[j+3];
  }

  /** `o` is reached from `i` by whole runes. */
  predicate BoundaryFrom(c: seq<byte>, i: nat, o: nat)
    requires i <= |c|
    decreases |c| - i
  {
    i == o || (i < o && i < |c| && BoundaryFrom(c, i + DecodeAt(c, i, |c|).width, o))
  }

  predicate IsBoundary(c: seq<byte>, o: nat) {
    BoundaryFrom(c, 0, o)
  }

  lemma {:induction false} BoundaryInRange(c: seq<byte>, i: nat, o: nat)
    requires i <= |c| && BoundaryFrom(c, i, o)
    ensures i <= o <= |c|
    decreases |c| - i
  {
    if i < o {
      BoundaryInRange(c, i + DecodeAt(c, i, |c|).width, o);
    }
  }

  lemma {:induction false} BoundaryExtends(c: seq<byte>, i: nat, o: nat)
    requires i <= |c| && BoundaryFrom(c, i, o) && o < |c|
    ensures BoundaryFrom(c, i, o + DecodeAt(c, o, |c|).width)
    decreases |c| - i
  {
    if i < o {
      BoundaryInRange(c, i + DecodeAt(c, i, |c|).width, o);
      BoundaryExtends(c, i + DecodeAt(c, i, |c|).width, o);
    }
  }

  /** Two boundaries lie on one chain of runes. */
  lemma {:induction false} BoundaryBetween(c: seq<byte>, i: nat, a: nat, b: nat)
    requires i <= |c| && BoundaryFrom(c, i, a) && BoundaryFrom(c, i, b) && a <= b
    ensures a <= |c| && BoundaryFrom(c, a, b)
    decreases |c| - i
  {
    if i < a {
      var n := i + DecodeAt(c, i, |c|).width;
      BoundaryInRange(c, n, a);
      BoundaryBetween(c, n, a, b);
    }
  }

  /** A byte below 0x80 is always a rune of its own, whatever surrounds it, so the decoder is back in step both
      before and after it. */
  lemma {:induction false} AsciiIsBoundary(c: seq<byte>, i: nat, o: nat)
    requires i <= o <= |c|
    requires o == |c| || c[o] < 0x80 || (i < o && c[o-1] < 0x80)
    ensures BoundaryFrom(c, i, o)
    decreases |c| - i
  {
    if i < o {
      var r := DecodeAt(c, i, |c|);
      if i + r.width < o {
        AsciiIsBoundary(c, i + r.width, o);
      }
    }
  }
}
